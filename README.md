# Crubit's nullability inference, nullability analysis and C++ binding front end, in Dafny

A model, with proofs, of four components of Crubit, the C++/Rust interoperability
tooling:

- **Translation-unit nullability inference** (`infer_tu.dfy`).
  - Evidence is collected from every target declaration and every implementation.
  - The evidence is sorted by the USR of its symbol. A USR is clang's unique symbol identifier.
  - Runs of equal USR are cut into batches, and each batch is merged into one inference.
- **Pointer nullability transfer functions** (`pointer_nullability.dfy`).
  - A dataflow lattice maps every pointer value to a boolean formula "this pointer is not null" and records unsafe dereferences.
  - An environment holds storage locations, values and the flow condition.
  - Seven handlers change them in place, and a dispatcher picks the first pattern that matches.
- **C++ AST to IR conversion** for the Rust binding generator (`ast_visitor.dfy`).
  - Type conversion, access specifier translation, and all-or-nothing import of functions and records.
  - A traversal that visits each canonical declaration once, and recording of the public headers.
- **Type overrides** (`type_map.dfy`).
  - The table of well-known C++ standard types.
  - The `crubit_internal_rust_type` annotation scan.
  - Their precedence in `TypeMapOverride`.

Supporting modules:
- `wrappers.dfy`: `Option` and `Result`.
- `statuses.dfy`: the part of `absl::Status` that is used.
- `usr_order.dfy`: the ordering `std::string::operator<` puts on USRs, which is lexicographic by character.

### Form of the model

Code that changes state is modelled as imperative Dafny:
- The evidence vector is sorted in place in an `array`.
- The batching loop walks that array.
- The nullability lattice and environment are two classes whose fields the handlers update.
- The AST visitor is a class whose `functions`, `records`, `usedHeaders` and `seenDecls` fields the visit and traverse methods grow.
- The attribute scan is a loop with early returns.

Each method is proved against a specification function or, for the nullability handlers, a two-state effect predicate (`InitialisedProperty` … `CastEffect`); the sorts are proved against `SortedByUsr` and multisets. What the C++ code guarantees is stated as lemmas about those functions. Pure code is modelled as functions:
- `ConvertType`
- `TranslateAccessSpecifier`
- the well-known type table
- `EvaluateAsStringLiteral`
- `merge`

Calls into the rest of Crubit and into clang are parameters of the model:
- the evidence collectors and `mergeEvidence` are function-typed parameters;
- the SAT solver behind `flowConditionImplies` is an `Oracle` parameter, and `SoundOracle` says what a sound one promises;
- the AST matchers become the set of patterns each statement matches;
- clang's type queries, the name mangler and constant evaluation become fields of the declaration and type values.

### Behaviour of the code worth noting

- **Failing implementations keep their evidence.** When the analysis of an implementation fails, `inferTU` has already pushed whatever evidence that implementation emitted before failing, and never removes it (`nullability/inference/infer_tu.cc:26-34`). The model keeps that evidence: see `ImplementationEvidence` and `ImplementationEvidenceKept`. A diagnostic `"Skipping function: " + reason` is still produced for it.
- **Unhandled statements are ignored.** A statement that matches no transfer pattern leaves the lattice and the environment unchanged (`Transfer`), and no diagnostic is produced.

## Model

| member | source | states |
|---|---|---|
| InferTU.InferTU | nullability/inference/infer_tu.cc:21-51 | the evidence passed to merge is a permutation of all collected evidence, sorted by USR; the inferences are merge applied to each USR batch in order; there are exactly as many inferences as distinct symbols in the collected evidence; no evidence gives no inferences; one diagnostic per failing implementation |
| InferTU.CollectEvidence | nullability/inference/infer_tu.cc:22-34 | the collected evidence is all declaration evidence in order, then all implementation evidence in order; the diagnostics are "Skipping function: " plus the error of each failing implementation |
| InferTU.DeclarationEvidenceKept | nullability/inference/infer_tu.cc:27-28 | every piece of evidence any declaration emits is in the collected evidence |
| InferTU.ImplementationEvidenceKept | nullability/inference/infer_tu.cc:29-34 | every piece of evidence an implementation emits is collected, including from an implementation that then fails |
| InferTU.SkipDiagnosticsCount | nullability/inference/infer_tu.cc:29-33 | there are exactly as many diagnostics as failing implementations |
| InferTU.SortByUsr | nullability/inference/infer_tu.cc:36-38 | after sorting the array is ordered by USR and is a permutation of its old contents |
| InferTU.InsertIntoSorted | nullability/inference/infer_tu.cc:36-38 | one insertion step extends the sorted prefix by one element, keeps the prefix's multiset of contents and leaves the rest of the array untouched |
| InferTU.RunEnd | nullability/inference/infer_tu.cc:43-45 | the end of the run is the first index at or after the start whose USR differs, or the length |
| InferTU.RunEndUnique | nullability/inference/infer_tu.cc:43-45 | any index where the run of equal USRs stops is the run end |
| InferTU.BatchEnd | nullability/inference/infer_tu.cc:43-45 | take_while stops after at least one element, at the first element with a different USR |
| InferTU.BatchesStep | nullability/inference/infer_tu.cc:42-47 | the batches from a start are the run there followed by the batches after it |
| InferTU.BatchesAdvance | nullability/inference/infer_tu.cc:46-47 | dropping the batch from the front of the remaining evidence keeps batches done plus batches remaining equal to all batches |
| InferTU.MergeBatches | nullability/inference/infer_tu.cc:40-48 | the loop returns merge applied to each batch of the array, in order |
| InferTU.MergeEach | nullability/inference/infer_tu.cc:47 | one inference per batch, the i-th being merge of the i-th batch |
| InferTU.MergeEachAppend | nullability/inference/infer_tu.cc:47 | pushing the merge of a new batch extends the inferences by exactly that element |
| InferTU.BatchesFromFlatten | nullability/inference/infer_tu.cc:40-48 | the batches from a start concatenate to the remaining evidence |
| InferTU.BatchesFlatten | nullability/inference/infer_tu.cc:40-48 | the batches concatenate back to the sorted evidence, so nothing is lost or duplicated |
| InferTU.BatchesFromUniform | nullability/inference/infer_tu.cc:43-45 | every batch from a start is non-empty and has one USR |
| InferTU.BatchesUniform | nullability/inference/infer_tu.cc:43-45 | every batch is non-empty and all its evidence has the same USR |
| InferTU.BatchStart | nullability/inference/infer_tu.cc:42-47 | every batch after the first starts at or after the end of the first run |
| InferTU.AfterRunGreater | nullability/inference/infer_tu.cc:36-45 | in sorted evidence every element after the run of a USR has a greater USR |
| InferTU.BatchesFromIncreasing | nullability/inference/infer_tu.cc:36-48 | batches from a start of sorted evidence have strictly increasing USRs |
| InferTU.BatchesIncreasing | nullability/inference/infer_tu.cc:36-48 | after sorting, batch USRs strictly increase, so each USR is in exactly one batch |
| InferTU.UsrsFromSplit | nullability/inference/infer_tu.cc:43-46 | the USRs from a start are the run's USR plus the USRs after the run |
| InferTU.BatchesFromCount | nullability/inference/infer_tu.cc:36-48 | for sorted evidence there are as many batches from a start as distinct USRs from it |
| InferTU.BatchCountIsDistinctUsrs | nullability/inference/infer_tu.cc:36-48 | there is one batch, hence one inference, per distinct symbol |
| InferTU.OneSymbolOneBatch | nullability/inference/infer_tu.cc:42-47 | evidence about one symbol forms a single batch |
| InferTU.PermutationKeepsUsrs | nullability/inference/infer_tu.cc:36-38 | sorting does not change which symbols the evidence is about |
| InferTU.AnnotationsExample | nullability/inference/infer_tu_test.cc:112-124 | whatever non-empty evidence the declaration and the definition of `target` emit, in whatever order the sort leaves it, it gives exactly one inference: merge of all of it |
| UsrOrder.LessIsLexicographic | nullability/inference/infer_tu.cc:37 | the comparator `Less` on USRs is `std::string`'s `<`: `a` precedes `b` exactly when, at the first position where they differ, `a` has ended or has the smaller character |
| UsrOrder.LessIrreflexive | nullability/inference/infer_tu.cc:37 | no USR is less than itself |
| UsrOrder.LessTransitive | nullability/inference/infer_tu.cc:37 | the USR order is transitive |
| UsrOrder.LessTotal | nullability/inference/infer_tu.cc:37 | two different USRs are ordered one way or the other |
| UsrOrder.LessAsymmetric | nullability/inference/infer_tu.cc:37 | a USR less than another is not also greater |
| UsrOrder.LessOrEqualTransitive | nullability/inference/infer_tu.cc:37 | not-after is transitive |
| UsrOrder.LessOrEqualAntisymmetric | nullability/inference/infer_tu.cc:37 | USRs not after each other are equal |
| PointerNullabilityAnalysis.NotNullProperty | nullability_verification/pointer_nullability_analysis.cc:38-44 | the property stored for the expression's pointer value, which must exist (the `CHECK`); it is one of the lattice's formulas and uses only allocated atoms |
| PointerNullabilityAnalysis.InitialisePointerNotNullProperty | nullability_verification/pointer_nullability_analysis.cc:46-56 | a pointer without a property gets a fresh atom that no existing property mentions; one with a property, or a null value, is left as is |
| PointerNullabilityAnalysis.AtomsBelowExcludes | nullability_verification/pointer_nullability_analysis.cc:52-53 | a formula built from atoms made before the fresh one does not mention it |
| PointerNullabilityAnalysis.AtomsBelowMonotone | nullability_verification/pointer_nullability_analysis.cc:52-53 | making a new atom keeps every existing formula within the allocated atoms |
| PointerNullabilityAnalysis.ValidAfterAllocation | nullability_verification/pointer_nullability_analysis.cc:65-67 | allocating a fresh location or atom keeps all existing properties, conditions and values within the allocated range |
| PointerNullabilityAnalysis.TransferNullPointerLiteral | nullability_verification/pointer_nullability_analysis.cc:58-76 | a literal without a value gets a new location and pointer value; its property becomes false unless it already has one |
| PointerNullabilityAnalysis.CreatePointerValue | nullability_verification/pointer_nullability_analysis.cc:63-70 | the new location is bound to the expression and holds a new pointer value pointing to it |
| PointerNullabilityAnalysis.TransferAddrOf | nullability_verification/pointer_nullability_analysis.cc:78-85 | the address-of result's property is overwritten with true |
| PointerNullabilityAnalysis.TransferDereference | nullability_verification/pointer_nullability_analysis.cc:87-95 | one violation at the pointer is appended exactly when the flow condition does not imply its property; with a sound oracle no violation means the property holds in every satisfying valuation |
| PointerNullabilityAnalysis.NullDereferenceReported | nullability_verification/pointer_nullability_analysis.cc:87-95 | at a reachable point a sound oracle never proves the null literal non-null, so dereferencing it is reported |
| PointerNullabilityAnalysis.ComparisonConjunctsMeaning | nullability_verification/pointer_nullability_analysis.cc:105-126 | EQ is the comparison for `==` and its negation for `!=`; NE is the negation of EQ; the added conjuncts hold iff both-null implies EQ and exactly-one-null implies not EQ |
| PointerNullabilityAnalysis.ComparisonConjunctsBelow | nullability_verification/pointer_nullability_analysis.cc:116-126 | the added implications mention only atoms already allocated |
| PointerNullabilityAnalysis.TransferNullCheckComparison | nullability_verification/pointer_nullability_analysis.cc:97-127 | the flow condition gains exactly the three implications, in order, and loses nothing |
| PointerNullabilityAnalysis.TransferNullCheckImplicitCastPtrToBool | nullability_verification/pointer_nullability_analysis.cc:129-141 | the cast expression gets a new location whose value is the pointer's very property formula; nothing changes for a pointer without a value |
| PointerNullabilityAnalysis.FirstMatch | nullability_verification/pointer_nullability_analysis.cc:143-161 | the position found matches, and no earlier case does |
| PointerNullabilityAnalysis.DispatchFirstMatchWins | nullability_verification/pointer_nullability_analysis.cc:143-161 | a case handles a statement iff it matches and no case before it in the fixed order matches |
| PointerNullabilityAnalysis.DispatchNone | nullability_verification/pointer_nullability_analysis.cc:143-161 | no handler runs iff the statement matches none of the seven patterns |
| PointerNullabilityAnalysis.Transfer | nullability_verification/pointer_nullability_analysis.cc:143-175 | for each of the seven cases, when it is the first match, the lattice and environment change exactly as that case's handler promises (fresh atom for a variable or member reference, `false` for a null literal, `true` for `&`, the violation check for `*`, the three implications for a comparison, the property as the cast's value); an unmatched statement changes nothing |
| PointerNullabilityAnalysis.Merge | nullability_verification/pointer_nullability_analysis.cc:177-184 | merging never succeeds, whatever the values and environments |
| AstVisitor.DecimalSpellsValue | rs_bindings_from_cc/ast_visitor.cc:134-136 | the printed width reads back as the width itself, with no leading zero |
| AstVisitor.IntegerRustNames | rs_bindings_from_cc/ast_visitor.cc:132-136 | the supported widths give the names i8 to i64 and u8 to u64 |
| AstVisitor.ConvertType | rs_bindings_from_cc/ast_visitor.cc:118-147 | converts iff under all pointers lies an 8/16/32/64-bit integer or void; keeps pointer depth; names integers by signedness and width with their spelling; an error is an Unimplemented status with message `Unsupported type '<outer spelling>'` and the outer spelling as its type payload |
| AstVisitor.ConvertIntegerExample | rs_bindings_from_cc/ast_visitor.cc:122-146 | `unsigned int` converts to u32, `int *` to a pointer to i32, and a pointer to a 128-bit integer fails naming the pointer type |
| AstVisitor.TranslateAccessSpecifier | rs_bindings_from_cc/ast_visitor.cc:74-89 | public, protected and private are kept; none becomes private |
| AstVisitor.NoNoneAccessInRecord | rs_bindings_from_cc/ast_visitor.cc:82-86 | the `AS_none` case, an `assert(false)` in the code, is never reached when importing a record field |
| AstVisitor.TranslateToClang | rs_bindings_from_cc/ast_visitor.cc:74-81 | translating an IR specifier's clang counterpart gives it back |
| AstVisitor.ConvertParams | rs_bindings_from_cc/ast_visitor.cc:48-57 | the parameters convert iff every parameter type converts; then in order, each named and typed as declared |
| AstVisitor.ConvertFields | rs_bindings_from_cc/ast_visitor.cc:100-113 | the fields convert iff every field type converts; then in order, each with its converted type and effective access |
| AstVisitor.ImportFunction | rs_bindings_from_cc/ast_visitor.cc:47-72 | a function is imported iff its return type and all parameter types convert, keeping name, mangled name and inline flag; its parameters are the declared ones in order, each with its name and converted type |
| AstVisitor.ImportRecord | rs_bindings_from_cc/ast_visitor.cc:91-116 | a record is imported iff all its field types convert, keeping its name; its fields are the declared ones in order, each with its name, converted type and effective access |
| AstVisitor.ImportRecordAccess | rs_bindings_from_cc/ast_visitor.cc:93-109 | a field without a specifier is private in a class and public otherwise; an explicit specifier is kept |
| AstVisitor.HeaderNames | rs_bindings_from_cc/ast_visitor.cc:40-42 | one header name per public header, in order |
| AstVisitor.Visit | rs_bindings_from_cc/ast_visitor.cc:47-116 | a function declaration appends its import, if any, to the functions and a record its import to the records; the other list and the seen set are unchanged, and any other declaration changes nothing |
| AstVisitor.TraverseExtends | rs_bindings_from_cc/ast_visitor.cc:29-34 | traversal only adds to the seen set and only appends to the IR |
| AstVisitor.BaseTraverseExtends | rs_bindings_from_cc/ast_visitor.cc:31 | the base traversal only adds to the seen set and only appends to the IR |
| AstVisitor.TraverseChildrenExtends | rs_bindings_from_cc/ast_visitor.cc:31 | traversing the children only adds to the seen set and only appends to the IR |
| AstVisitor.TraverseMarksSeen | rs_bindings_from_cc/ast_visitor.cc:29-34 | after traversal the canonical declaration is in the seen set |
| AstVisitor.RedeclarationSkipped | rs_bindings_from_cc/ast_visitor.cc:29-34 | a declaration with an already seen canonical declaration is not traversed again |
| AstVisitor.FirstVisitEmitsFunction | rs_bindings_from_cc/ast_visitor.cc:29-72 | a function met for the first time whose types convert is the next IR function |
| AstVisitor.FirstVisitEmitsRecord | rs_bindings_from_cc/ast_visitor.cc:29-116 | a record met for the first time whose fields convert is the next IR record |
| AstVisitor.Visitor.VisitFunctionDecl | rs_bindings_from_cc/ast_visitor.cc:47-72 | appends the imported function iff it imports; always continues |
| AstVisitor.Visitor.VisitRecordDecl | rs_bindings_from_cc/ast_visitor.cc:91-116 | appends the imported record iff it imports; always continues |
| AstVisitor.Visitor.TraverseDecl | rs_bindings_from_cc/ast_visitor.cc:29-34 | inserts the canonical declaration and traverses only if it was new; always continues |
| AstVisitor.Visitor.BaseTraverseDecl | rs_bindings_from_cc/ast_visitor.cc:31 | visits the declaration, then traverses its children in order |
| AstVisitor.Visitor.TraverseTranslationUnitDecl | rs_bindings_from_cc/ast_visitor.cc:36-45 | the public headers are appended in order after the existing ones, then the unit is traversed |
| TypeMap.MapKnownCcTypeToRsType | rs_bindings_from_cc/type_map.cc:22-69 | none iff the name is not in the table, otherwise the table's entry |
| TypeMap.StdPrefixAgreesPtrdiff | rs_bindings_from_cc/type_map.cc:34-41 | ptrdiff_t and intptr_t map to isize with and without `std::` |
| TypeMap.StdPrefixAgreesSize | rs_bindings_from_cc/type_map.cc:34-41 | size_t and uintptr_t map to usize with and without `std::` |
| TypeMap.StdPrefixAgreesInt8Int16 | rs_bindings_from_cc/type_map.cc:43-50 | int8_t and int16_t map to i8 and i16 with and without `std::` |
| TypeMap.StdPrefixAgreesInt32Int64 | rs_bindings_from_cc/type_map.cc:43-50 | int32_t and int64_t map to i32 and i64 with and without `std::` |
| TypeMap.StdPrefixAgreesUint8Uint16 | rs_bindings_from_cc/type_map.cc:52-60 | uint8_t and uint16_t map to u8 and u16 with and without `std::` |
| TypeMap.StdPrefixAgreesUint32Uint64 | rs_bindings_from_cc/type_map.cc:52-60 | uint32_t and uint64_t map to u32 and u64 with and without `std::` |
| TypeMap.CharacterTypes | rs_bindings_from_cc/type_map.cc:62-64 | char16_t, char32_t and wchar_t map to u16, u32 and i32; plain char is not mapped |
| TypeMap.WellKnownAreRustPrimitives | rs_bindings_from_cc/type_map.cc:34-64 | every table entry is a Rust primitive integer type |
| TypeMap.EvaluateAsStringLiteral | rs_bindings_from_cc/type_map.cc:74-100 | succeeds iff the argument evaluates to an lvalue whose base is a string literal, with its text; otherwise the fixed InvalidArgument error |
| TypeMap.RustTypeAnnotations | rs_bindings_from_cc/type_map.cc:107-109 | only annotations named `crubit_internal_rust_type`, drawn from the attributes |
| TypeMap.RustTypeAnnotationsEmpty | rs_bindings_from_cc/type_map.cc:107-109 | no annotation is found iff no attribute has that name |
| TypeMap.RustTypeAnnotationsPrefix | rs_bindings_from_cc/type_map.cc:107-123 | scanning a prefix of the attributes finds a prefix of the annotations |
| TypeMap.NoAnnotationNoAttribute | rs_bindings_from_cc/type_map.cc:104-125 | the scan gives none iff there is no tag declaration or no annotation of that name |
| TypeMap.TwoAnnotationsRejected | rs_bindings_from_cc/type_map.cc:107-114 | once a well-formed first annotation is found, any second one gives the InvalidArgument duplicate error, whatever its own arguments |
| TypeMap.RustTypeAttributeErrors | rs_bindings_from_cc/type_map.cc:102-126 | every scan error is an InvalidArgument status without payload, carrying the duplicate, argument-count or string-literal message |
| TypeMap.AnnotationsBetween | rs_bindings_from_cc/type_map.cc:107-114 | annotations at two positions are both found |
| TypeMap.SingleAnnotationAccepted | rs_bindings_from_cc/type_map.cc:115-125 | one annotation with a single string-literal argument yields its text |
| TypeMap.OnlyAnnotation | rs_bindings_from_cc/type_map.cc:107-109 | a single annotation of that name is the only one found |
| TypeMap.GetRustTypeAttribute | rs_bindings_from_cc/type_map.cc:102-126 | the loop returns the declarative scan result: the duplicate check precedes the argument-count check, and errors of the string evaluation propagate |
| TypeMap.ScanSkips | rs_bindings_from_cc/type_map.cc:109 | an attribute of another name is skipped |
| TypeMap.ScanFinds | rs_bindings_from_cc/type_map.cc:107-123 | an annotation of that name is the next one found, at the position the scan has reached |
| TypeMap.TypeMapOverride | rs_bindings_from_cc/type_map.cc:130-142 | a scan error is returned unchanged; an attribute wins over the table; only without one is the table consulted; a hit gives `Simple(rust, spelling)`, a miss none |

## Left out

- I/O is not modelled: printing to `llvm::errs()` and dumping a failing implementation with `Impl->print`. The diagnostics are returned as a sequence of strings instead.
- `EvidenceSites::discover`, `collectEvidenceFromTargetDeclaration`, `collectEvidenceFromImplementation` and `mergeEvidence` are function parameters. Their definitions (`collect_evidence.h`, `merge.h`) are not part of this model.
- InferTU.SortByUsr: `llvm::sort`'s own algorithm is not modelled. An insertion sort stands in for it. Only "a permutation, sorted by USR" is stated, because the order within a batch is unspecified.
- The SAT solver behind `flowConditionImplies` is an oracle parameter. Formula construction is not canonicalised: `makeNot`, `makeAnd` and `makeImplication` build syntax trees.
- `SkipPast::Reference` and `SkipPast::None` are not modelled. Nor is `IgnoreImplicit` beyond taking the cast's operand: each expression has at most one storage location.
- The AST matchers (`pointer_nullability_matchers.h`) are not part of this model. Each statement carries the set of patterns it matches. The cast-to-pointer and `CHECK` failures of the handlers become preconditions.
- The lattice's container types (`pointer_nullability_lattice.h`) are not part of this model. Violations are a sequence, so a repeated dereference is recorded once per occurrence.
- The clang traversal base class is modelled only as "visit the declaration, then traverse its children in order". Its other hooks (statements, types, `WalkUpFrom` chains) are left out.
- The name mangler (`GetMangledName`) is not modelled. The mangled name is carried by the function declaration.
- `clang::ASTContext::getTypeSize`, `isSignedInteger`, `getAs<>` and `getAsTagDecl` become fields of the type values.
- `ir.h` is not part of this model. `Type::PointerTo`, `Type::Void` and the named type are constructors of `IrType`, and their Rust and C++ spellings are not modelled.
- The absl `Status` is reduced to a code, a message and payloads.
- AstVisitor.TraverseDecl: the seen set holds canonical declaration identities supplied with each declaration. Clang's computation of the canonical declaration is not modelled.
- Concurrency and memory ownership (`takeOwnership`, pointer identity of values) are left out. Values, storage locations and atoms are numbered from one counter.
