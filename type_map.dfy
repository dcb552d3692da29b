/**
 * Type overrides of the binding generator: a C++ type maps to a Rust type either
 * through a `crubit_internal_rust_type` annotation on its declaration or through a
 * fixed table of well-known C++ standard types.
 *
 * Clang's constant evaluation of an annotation argument is given as the outcome it
 * reports for that argument.
 */
module TypeMap {
  import opened Wrappers
  import opened Statuses

  // ---------------------------------------------------------------------------
  // The well-known types

  /** C++ standard types and the Rust types they correspond to. */
  const WellKnownTypes: map<string, string> := map[
    "ptrdiff_t" := "isize",
    "intptr_t" := "isize",
    "size_t" := "usize",
    "uintptr_t" := "usize",
    "std::ptrdiff_t" := "isize",
    "std::intptr_t" := "isize",
    "std::size_t" := "usize",
    "std::uintptr_t" := "usize",

    "int8_t" := "i8",
    "int16_t" := "i16",
    "int32_t" := "i32",
    "int64_t" := "i64",
    "std::int8_t" := "i8",
    "std::int16_t" := "i16",
    "std::int32_t" := "i32",
    "std::int64_t" := "i64",

    "uint8_t" := "u8",
    "uint16_t" := "u16",
    "uint32_t" := "u32",
    "uint64_t" := "u64",
    "std::uint8_t" := "u8",
    "std::uint16_t" := "u16",
    "std::uint32_t" := "u32",
    "std::uint64_t" := "u64",

    "char16_t" := "u16",
    "char32_t" := "u32",
    "wchar_t" := "i32"
  ]

  /** `MapKnownCcTypeToRsType`: the table's entry for the name, or none for a name not in it. */
  function MapKnownCcTypeToRsType(ccType: string): (r: Option<string>)
    ensures r.None? <==> ccType !in WellKnownTypes
    ensures r.Some? ==> ccType in WellKnownTypes && r.value == WellKnownTypes[ccType]
  {
    if ccType in WellKnownTypes then Some(WellKnownTypes[ccType]) else None
  }

  /** `ptrdiff_t` and `intptr_t` map to the same Rust type with and without the `std::` prefix. */
  lemma StdPrefixAgreesPtrdiff()
    ensures MapKnownCcTypeToRsType("std::ptrdiff_t") == MapKnownCcTypeToRsType("ptrdiff_t") == Some("isize")
    ensures MapKnownCcTypeToRsType("std::intptr_t") == MapKnownCcTypeToRsType("intptr_t") == Some("isize")
  {
  }

  /** `size_t` and `uintptr_t` map to the same Rust type with and without the `std::` prefix. */
  lemma StdPrefixAgreesSize()
    ensures MapKnownCcTypeToRsType("std::size_t") == MapKnownCcTypeToRsType("size_t") == Some("usize")
    ensures MapKnownCcTypeToRsType("std::uintptr_t") == MapKnownCcTypeToRsType("uintptr_t") == Some("usize")
  {
  }

  /** `int8_t` and `int16_t` map to the same Rust type with and without the `std::` prefix. */
  lemma StdPrefixAgreesInt8Int16()
    ensures MapKnownCcTypeToRsType("std::int8_t") == MapKnownCcTypeToRsType("int8_t") == Some("i8")
    ensures MapKnownCcTypeToRsType("std::int16_t") == MapKnownCcTypeToRsType("int16_t") == Some("i16")
  {
  }

  /** `int32_t` and `int64_t` map to the same Rust type with and without the `std::` prefix. */
  lemma StdPrefixAgreesInt32Int64()
    ensures MapKnownCcTypeToRsType("std::int32_t") == MapKnownCcTypeToRsType("int32_t") == Some("i32")
    ensures MapKnownCcTypeToRsType("std::int64_t") == MapKnownCcTypeToRsType("int64_t") == Some("i64")
  {
  }

  /** `uint8_t` and `uint16_t` map to the same Rust type with and without the `std::` prefix. */
  lemma StdPrefixAgreesUint8Uint16()
    ensures MapKnownCcTypeToRsType("std::uint8_t") == MapKnownCcTypeToRsType("uint8_t") == Some("u8")
    ensures MapKnownCcTypeToRsType("std::uint16_t") == MapKnownCcTypeToRsType("uint16_t") == Some("u16")
  {
  }

  /** `uint32_t` and `uint64_t` map to the same Rust type with and without the `std::` prefix. */
  lemma StdPrefixAgreesUint32Uint64()
    ensures MapKnownCcTypeToRsType("std::uint32_t") == MapKnownCcTypeToRsType("uint32_t") == Some("u32")
    ensures MapKnownCcTypeToRsType("std::uint64_t") == MapKnownCcTypeToRsType("uint64_t") == Some("u64")
  {
  }

  /** The character types map to the integer of their width; plain `char` is not in the table. */
  lemma CharacterTypes()
    ensures MapKnownCcTypeToRsType("char16_t") == Some("u16")
    ensures MapKnownCcTypeToRsType("char32_t") == Some("u32")
    ensures MapKnownCcTypeToRsType("wchar_t") == Some("i32")
    ensures MapKnownCcTypeToRsType("char").None?
  {
  }

  const RustPrimitives: set<string> := {"isize", "usize", "i8", "i16", "i32", "i64", "u8", "u16", "u32", "u64"}

  /** Every well-known type maps to a Rust primitive integer type. */
  lemma WellKnownAreRustPrimitives(ccType: string)
    ensures MapKnownCcTypeToRsType(ccType).Some? ==> MapKnownCcTypeToRsType(ccType).value in RustPrimitives
  {
  }

  // ---------------------------------------------------------------------------
  // The `crubit_internal_rust_type` annotation

  /** What clang's constant evaluator reports for an expression. */
  datatype ConstantEvaluation =
    | NotConstant                        // `EvaluateAsConstantExpr` fails
    | NotLValue                          // the value is not an lvalue
    | LValueWithoutExpr                  // the lvalue's base is not an expression
    | LValueOfExpr(isStringLiteral: bool, literal: string)

  /** An annotation argument, with the outcome of evaluating it. */
  datatype Expr = Expr(evaluation: ConstantEvaluation)

  /** `clang::AnnotateAttr`: the annotation's name and its arguments. */
  datatype AnnotateAttr = AnnotateAttr(annotation: string, args: seq<Expr>)

  /** A tag declaration, with its annotation attributes in order. */
  datatype TagDecl = TagDecl(attrs: seq<AnnotateAttr>)

  /** A C++ type: its spelling and, for a record or enum, its tag declaration. */
  datatype ClangType = ClangType(spelling: string, tagDecl: Option<TagDecl>)

  datatype MappedType = Simple(rustType: string, ccType: string)

  const RustTypeAnnotation: string := "crubit_internal_rust_type"

  const NotStringLiteralMessage: string := "cannot evaluate argument as a string literal"
  const DuplicateMessage: string := "Only one `crubit_internal_rust_type` attribute may be placed on a type."
  const ArgumentCountMessage: string :=
    "The `crubit_internal_rust_type` attribute requires a single string literal argument, the Rust type."

  /** `EvaluateAsStringLiteral`: the literal's text when the argument evaluates to a string literal. */
  function EvaluateAsStringLiteral(e: Expr): (r: Result<string, Status>)
    ensures r.Success? <==> e.evaluation.LValueOfExpr? && e.evaluation.isStringLiteral
    ensures r.Success? ==> r.value == e.evaluation.literal
    ensures r.Failure? ==> r.error == Status(InvalidArgument, NotStringLiteralMessage, map[])
  {
    match e.evaluation
    case NotConstant => Failure(InvalidArgumentError(NotStringLiteralMessage))
    case NotLValue => Failure(InvalidArgumentError(NotStringLiteralMessage))
    case LValueWithoutExpr => Failure(InvalidArgumentError(NotStringLiteralMessage))
    case LValueOfExpr(isStringLiteral, literal) =>
      if isStringLiteral then Success(literal) else Failure(InvalidArgumentError(NotStringLiteralMessage))
  }

  /** The `crubit_internal_rust_type` annotations among the attributes, in order. */
  function RustTypeAnnotations(attrs: seq<AnnotateAttr>): (r: seq<AnnotateAttr>)
    ensures |r| <= |attrs|
    ensures forall k :: 0 <= k < |r| ==> r[k].annotation == RustTypeAnnotation && r[k] in attrs
  {
    if attrs == [] then []
    else
      var last := attrs[|attrs| - 1];
      RustTypeAnnotations(attrs[..|attrs| - 1]) + (if last.annotation == RustTypeAnnotation then [last] else [])
  }

  lemma {:induction false} RustTypeAnnotationsEmpty(attrs: seq<AnnotateAttr>)
    ensures RustTypeAnnotations(attrs) == [] <==> forall k :: 0 <= k < |attrs| ==> attrs[k].annotation != RustTypeAnnotation
  {
    if attrs != [] {
      var init := attrs[..|attrs| - 1];
      RustTypeAnnotationsEmpty(init);
      assert forall k :: 0 <= k < |init| ==> init[k] == attrs[k];
    }
  }

  /** Scanning a prefix of the attributes finds a prefix of the annotations. */
  lemma {:induction false} RustTypeAnnotationsPrefix(attrs: seq<AnnotateAttr>, i: nat)
    requires i <= |attrs|
    ensures |RustTypeAnnotations(attrs[..i])| <= |RustTypeAnnotations(attrs)|
    ensures RustTypeAnnotations(attrs)[..|RustTypeAnnotations(attrs[..i])|] == RustTypeAnnotations(attrs[..i])
    decreases |attrs| - i
  {
    if i < |attrs| {
      RustTypeAnnotationsPrefix(attrs, i + 1);
      assert attrs[..i + 1][..i] == attrs[..i];
      var a, b, c := RustTypeAnnotations(attrs[..i]), RustTypeAnnotations(attrs[..i + 1]), RustTypeAnnotations(attrs);
      assert c[..|b|][..|a|] == c[..|a|];
      assert b[..|a|] == a;
    } else {
      assert attrs[..i] == attrs;
    }
  }

  /**
   * The result of the attribute scan, stated on the annotations it considers: none
   * without an annotation; otherwise the first annotation must have exactly one
   * argument that evaluates to a string literal, and there must be no second one.
   */
  function RustTypeAttribute(t: ClangType): Result<Option<string>, Status>
  {
    if t.tagDecl.None? then Success(None)
    else
      var annotations := RustTypeAnnotations(t.tagDecl.value.attrs);
      if annotations == [] then Success(None)
      else if |annotations[0].args| != 1 then Failure(InvalidArgumentError(ArgumentCountMessage))
      else
        var literal := EvaluateAsStringLiteral(annotations[0].args[0]);
        if literal.Failure? then Failure(literal.error)
        else if |annotations| >= 2 then Failure(InvalidArgumentError(DuplicateMessage))
        else Success(Some(literal.value))
  }

  /** The scan yields none exactly when there is no tag declaration or no annotation of that name on it. */
  lemma NoAnnotationNoAttribute(t: ClangType)
    ensures RustTypeAttribute(t) == Success(None) <==>
      t.tagDecl.None? || forall k :: 0 <= k < |t.tagDecl.value.attrs| ==> t.tagDecl.value.attrs[k].annotation != RustTypeAnnotation
  {
    if t.tagDecl.Some? {
      RustTypeAnnotationsEmpty(t.tagDecl.value.attrs);
    }
  }

  /**
   * A second annotation after a well-formed first one is rejected as a duplicate,
   * whatever the second one's arguments are: it is never evaluated.
   */
  lemma TwoAnnotationsRejected(t: ClangType, i: nat, j: nat)
    requires t.tagDecl.Some? && i < j < |t.tagDecl.value.attrs|
    requires forall k :: 0 <= k < i ==> t.tagDecl.value.attrs[k].annotation != RustTypeAnnotation
    requires t.tagDecl.value.attrs[i].annotation == RustTypeAnnotation
    requires |t.tagDecl.value.attrs[i].args| == 1 && EvaluateAsStringLiteral(t.tagDecl.value.attrs[i].args[0]).Success?
    requires t.tagDecl.value.attrs[j].annotation == RustTypeAnnotation
    ensures RustTypeAttribute(t) == Failure(Status(InvalidArgument, DuplicateMessage, map[]))
  {
    var attrs := t.tagDecl.value.attrs;
    AnnotationsBetween(attrs, i, j);
    RustTypeAnnotationsEmpty(attrs[..i]);
    ScanFinds(attrs, i);
  }

  /** Every error of the scan is an InvalidArgument status without payload, with one of its three messages. */
  lemma RustTypeAttributeErrors(t: ClangType)
    ensures RustTypeAttribute(t).Failure? ==>
      && RustTypeAttribute(t).error.code == InvalidArgument
      && RustTypeAttribute(t).error.payloads == map[]
      && RustTypeAttribute(t).error.message in {ArgumentCountMessage, NotStringLiteralMessage, DuplicateMessage}
  {
  }

  /** With annotations at positions i < j, at least two annotations are found. */
  lemma AnnotationsBetween(attrs: seq<AnnotateAttr>, i: nat, j: nat)
    requires i < j < |attrs|
    requires attrs[i].annotation == RustTypeAnnotation && attrs[j].annotation == RustTypeAnnotation
    ensures |RustTypeAnnotations(attrs)| >= 2
  {
    ScanFinds(attrs[..j], i);
    ScanFinds(attrs, j);
  }

  /** Exactly one annotation, with a single string-literal argument: its text is the Rust type. */
  lemma SingleAnnotationAccepted(t: ClangType, i: nat, literal: string)
    requires t.tagDecl.Some? && i < |t.tagDecl.value.attrs|
    requires forall k :: 0 <= k < |t.tagDecl.value.attrs| && k != i ==> t.tagDecl.value.attrs[k].annotation != RustTypeAnnotation
    requires t.tagDecl.value.attrs[i] == AnnotateAttr(RustTypeAnnotation, [Expr(LValueOfExpr(true, literal))])
    ensures RustTypeAttribute(t) == Success(Some(literal))
  {
    var attrs := t.tagDecl.value.attrs;
    OnlyAnnotation(attrs, i);
  }

  lemma {:induction false} OnlyAnnotation(attrs: seq<AnnotateAttr>, i: nat)
    requires i < |attrs| && attrs[i].annotation == RustTypeAnnotation
    requires forall k :: 0 <= k < |attrs| && k != i ==> attrs[k].annotation != RustTypeAnnotation
    ensures RustTypeAnnotations(attrs) == [attrs[i]]
    decreases |attrs|
  {
    var init := attrs[..|attrs| - 1];
    if i == |attrs| - 1 {
      RustTypeAnnotationsEmpty(init);
    } else {
      OnlyAnnotation(init, i);
    }
  }

  /**
   * `GetRustTypeAttribute`: scan the tag declaration's annotations in order,
   * rejecting a second `crubit_internal_rust_type` before looking at its arguments.
   */
  method GetRustTypeAttribute(t: ClangType) returns (r: Result<Option<string>, Status>)
    ensures r == RustTypeAttribute(t)
  {
    var rustType: Option<string> := None;
    if t.tagDecl.Some? {
      var attrs := t.tagDecl.value.attrs;
      for i := 0 to |attrs|
        invariant ScannedSoFar(RustTypeAnnotations(attrs[..i]), rustType)
      {
        var attr := attrs[i];
        if attr.annotation != RustTypeAnnotation {
          ScanSkips(attrs, i);
          continue;
        }
        ScanFinds(attrs, i);
        if rustType.Some? {
          return Failure(InvalidArgumentError(DuplicateMessage));
        }
        if |attr.args| != 1 {
          return Failure(InvalidArgumentError(ArgumentCountMessage));
        }
        var literal := EvaluateAsStringLiteral(attr.args[0]);
        if literal.Failure? {
          return Failure(literal.error);
        }
        rustType := Some(literal.value);
      }
      assert attrs[..|attrs|] == attrs;
    }
    return Success(rustType);
  }

  /** What the scan has found after the annotations `found`: nothing, or the one well-formed annotation's text. */
  predicate ScannedSoFar(found: seq<AnnotateAttr>, rustType: Option<string>)
  {
    && (rustType.None? <==> found == [])
    && (rustType.Some? ==>
          && |found| == 1 && |found[0].args| == 1
          && EvaluateAsStringLiteral(found[0].args[0]) == Success(rustType.value))
  }

  /** An attribute of another name leaves the annotations found unchanged. */
  lemma ScanSkips(attrs: seq<AnnotateAttr>, i: nat)
    requires i < |attrs| && attrs[i].annotation != RustTypeAnnotation
    ensures RustTypeAnnotations(attrs[..i + 1]) == RustTypeAnnotations(attrs[..i])
  {
    assert attrs[..i + 1][..i] == attrs[..i];
  }

  /**
   * A `crubit_internal_rust_type` annotation at position i is the next annotation
   * found, and it decides the result in the way the scan does at that point.
   */
  lemma ScanFinds(attrs: seq<AnnotateAttr>, i: nat)
    requires i < |attrs| && attrs[i].annotation == RustTypeAnnotation
    ensures RustTypeAnnotations(attrs[..i + 1]) == RustTypeAnnotations(attrs[..i]) + [attrs[i]]
    ensures var found, all := RustTypeAnnotations(attrs[..i]), RustTypeAnnotations(attrs);
      && |found| < |all| && all[|found|] == attrs[i]
      && all[..|found|] == found
  {
    assert attrs[..i + 1][..i] == attrs[..i];
    RustTypeAnnotationsPrefix(attrs, i + 1);
    var found, next, all := RustTypeAnnotations(attrs[..i]), RustTypeAnnotations(attrs[..i + 1]), RustTypeAnnotations(attrs);
    assert all[..|next|] == next;
    assert all[|found|] == next[|found|];
    assert all[..|found|] == all[..|next|][..|found|];
  }

  /**
   * `TypeMapOverride`: an error from the attribute scan is returned as is; an
   * attribute wins over the table; the table is looked up by the type's spelling
   * only when there is no attribute.
   */
  method TypeMapOverride(t: ClangType) returns (r: Result<Option<MappedType>, Status>)
    ensures RustTypeAttribute(t).Failure? ==> r == Failure(RustTypeAttribute(t).error)
    ensures RustTypeAttribute(t).Success? && RustTypeAttribute(t).value.Some? ==>
      r == Success(Some(Simple(RustTypeAttribute(t).value.value, t.spelling)))
    ensures RustTypeAttribute(t) == Success(None) && t.spelling in WellKnownTypes ==>
      r == Success(Some(Simple(WellKnownTypes[t.spelling], t.spelling)))
    ensures RustTypeAttribute(t) == Success(None) && t.spelling !in WellKnownTypes ==> r == Success(None)
  {
    var typeString := t.spelling;
    var attribute := GetRustTypeAttribute(t);
    if attribute.Failure? {
      return Failure(attribute.error);
    }
    var rustType := attribute.value;
    if rustType.None? {
      rustType := MapKnownCcTypeToRsType(typeString);
    }
    if rustType.Some? {
      return Success(Some(Simple(rustType.value, typeString)));
    }
    return Success(None);
  }
}
