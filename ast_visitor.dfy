/**
 * The C++ side of the binding generator: the AST visitor that turns the
 * declarations of a translation unit into IR. It converts C++ types to IR types,
 * imports functions and records whose types all convert, and traverses each
 * declaration only the first time its canonical declaration is seen.
 *
 * C++ types and declarations are given as values carrying what clang would report
 * about them (spelling, integer width and signedness, access specifier, mangled
 * name); the IR types mirror the constructors the visitor uses.
 */
module AstVisitor {
  import opened Wrappers
  import opened Statuses

  // ---------------------------------------------------------------------------
  // C++ types and their conversion

  /** What `clang::BuiltinType` reports: an integer type with its width in bits, void, or another builtin. */
  datatype Builtin =
    | IntegerBuiltin(size: nat, isSigned: bool)
    | VoidBuiltin
    | OtherBuiltin

  /** A `clang::QualType`, with the string `getAsString` gives for it. */
  datatype CcType =
    | PointerType(spelling: string, pointee: CcType)
    | BuiltinType(spelling: string, builtin: Builtin)
    | OtherType(spelling: string)

  /** An IR type: a pointer, `void`, or a primitive with its Rust and C++ names. */
  datatype IrType =
    | PointerTo(pointee: IrType)
    | Void
    | Named(rsName: string, ccName: string)

  /** The payload key under which an unsupported type's spelling is attached. */
  const TypeStatusPayloadUrl: string := "type.googleapis.com/devtools.rust.cc_interop.rs_binding_from_cc.type"

  /** The error returned for a type that cannot be converted. */
  function UnsupportedType(spelling: string): Status
  {
    Status(Unimplemented, "Unsupported type '" + spelling + "'", map[TypeStatusPayloadUrl := spelling])
  }

  function DigitChar(d: nat): char
    requires d < 10
  {
    "0123456789"[d]
  }

  /** The decimal spelling of a natural number, as `absl::Substitute` prints it. */
  function Decimal(n: nat): (s: string)
    ensures |s| >= 1
    ensures forall i :: 0 <= i < |s| ==> '0' <= s[i] <= '9'
    decreases n
  {
    if n < 10 then [DigitChar(n)] else Decimal(n / 10) + [DigitChar(n % 10)]
  }

  /** The number a string of decimal digits spells, most significant digit first. */
  function DecimalValue(s: string): nat
    requires forall i :: 0 <= i < |s| ==> '0' <= s[i] <= '9'
  {
    if s == [] then 0 else 10 * DecimalValue(s[..|s| - 1]) + (s[|s| - 1] as int - '0' as int)
  }

  lemma DigitCharValue(d: nat)
    requires d < 10
    ensures DigitChar(d) as int - '0' as int == d
  {
  }

  /** `Decimal` spells its argument, without leading zeros. */
  lemma {:induction false} DecimalSpellsValue(n: nat)
    ensures DecimalValue(Decimal(n)) == n
    ensures n > 0 ==> Decimal(n)[0] != '0'
    decreases n
  {
    if n < 10 {
      DigitCharValue(n);
      assert DecimalValue([DigitChar(n)]) == DecimalValue([]) + (DigitChar(n) as int - '0' as int);
    } else {
      var init, last := Decimal(n / 10), DigitChar(n % 10);
      DecimalSpellsValue(n / 10);
      DigitCharValue(n % 10);
      assert (init + [last])[..|init|] == init;
      assert (init + [last])[0] == init[0];
    }
  }

  /** The Rust name of a C++ integer type: `i` or `u` followed by its width. */
  function IntegerRustName(isSigned: bool, size: nat): string
  {
    [if isSigned then 'i' else 'u'] + Decimal(size)
  }

  lemma IntegerRustNames()
    ensures IntegerRustName(true, 8) == "i8" && IntegerRustName(false, 8) == "u8"
    ensures IntegerRustName(true, 16) == "i16" && IntegerRustName(false, 16) == "u16"
    ensures IntegerRustName(true, 32) == "i32" && IntegerRustName(false, 32) == "u32"
    ensures IntegerRustName(true, 64) == "i64" && IntegerRustName(false, 64) == "u64"
  {
    assert Decimal(16) == Decimal(1) + [DigitChar(6)];
    assert Decimal(32) == Decimal(3) + [DigitChar(2)];
    assert Decimal(64) == Decimal(6) + [DigitChar(4)];
  }

  /** The type under all the pointers. */
  function Innermost(t: CcType): (leaf: CcType)
    ensures !leaf.PointerType?
  {
    if t.PointerType? then Innermost(t.pointee) else t
  }

  function PointerDepth(t: CcType): nat
  {
    if t.PointerType? then 1 + PointerDepth(t.pointee) else 0
  }

  function IrPointerDepth(t: IrType): nat
  {
    if t.PointerTo? then 1 + IrPointerDepth(t.pointee) else 0
  }

  function IrInnermost(t: IrType): IrType
  {
    if t.PointerTo? then IrInnermost(t.pointee) else t
  }

  /** A type the visitor can convert when it is not a pointer: an 8-, 16-, 32- or 64-bit integer, or void. */
  predicate LeafSupported(t: CcType)
  {
    && t.BuiltinType?
    && ((t.builtin.IntegerBuiltin? && t.builtin.size in {8, 16, 32, 64}) || t.builtin.VoidBuiltin?)
  }

  /**
   * `AstVisitor::ConvertType`. A type converts exactly when, under its pointers,
   * it is a supported integer or void; the conversion keeps the pointer depth and
   * names the integer by signedness and width with its C++ spelling. A failure
   * names the outermost type, also when only the pointee is unsupported.
   */
  function ConvertType(t: CcType): (r: Result<IrType, Status>)
    ensures r.Success? <==> LeafSupported(Innermost(t))
    ensures r.Failure? ==>
      && r.error.code == Unimplemented
      && r.error.message == "Unsupported type '" + t.spelling + "'"
      && r.error.payloads == map[TypeStatusPayloadUrl := t.spelling]
    ensures r.Success? ==> IrPointerDepth(r.value) == PointerDepth(t)
    ensures r.Success? && Innermost(t).builtin.VoidBuiltin? ==> IrInnermost(r.value) == Void
    ensures r.Success? && Innermost(t).builtin.IntegerBuiltin? ==>
      var b := Innermost(t).builtin;
      IrInnermost(r.value) == Named(IntegerRustName(b.isSigned, b.size), Innermost(t).spelling)
  {
    match t
    case PointerType(spelling, pointee) =>
      var converted := ConvertType(pointee);
      if converted.Success? then Success(PointerTo(converted.value)) else Failure(UnsupportedType(spelling))
    case BuiltinType(spelling, builtin) =>
      if builtin.IntegerBuiltin? && builtin.size in {8, 16, 32, 64} then
        Success(Named(IntegerRustName(builtin.isSigned, builtin.size), spelling))
      else if builtin.VoidBuiltin? then
        Success(Void)
      else
        Failure(UnsupportedType(spelling))
    case OtherType(spelling) =>
      Failure(UnsupportedType(spelling))
  }

  /** A supported integer keeps its signedness in the Rust name, e.g. `unsigned int` of 32 bits becomes `u32`. */
  lemma ConvertIntegerExample()
    ensures ConvertType(BuiltinType("unsigned int", IntegerBuiltin(32, false))) == Success(Named("u32", "unsigned int"))
    ensures ConvertType(PointerType("int *", BuiltinType("int", IntegerBuiltin(32, true))))
      == Success(PointerTo(Named("i32", "int")))
    ensures ConvertType(PointerType("__int128 *", BuiltinType("__int128", IntegerBuiltin(128, true))))
      == Failure(UnsupportedType("__int128 *"))
  {
    IntegerRustNames();
  }

  // ---------------------------------------------------------------------------
  // Access specifiers

  /** `clang::AccessSpecifier`. */
  datatype ClangAccess = AsPublic | AsProtected | AsPrivate | AsNone

  /** The IR's access specifier. */
  datatype AccessSpecifier = Public | Protected | Private

  /** The clang specifier an IR specifier stands for. */
  function ToClang(a: AccessSpecifier): ClangAccess
  {
    match a
    case Public => AsPublic
    case Protected => AsProtected
    case Private => AsPrivate
  }

  /**
   * `TranslateAccessSpecifier`: an explicit specifier is kept; "none", which the
   * IR never holds, conservatively becomes private.
   */
  function TranslateAccessSpecifier(access: ClangAccess): (r: AccessSpecifier)
    ensures access != AsNone ==> ToClang(r) == access
    ensures access == AsNone ==> r == Private
  {
    match access
    case AsPublic => Public
    case AsProtected => Protected
    case AsPrivate => Private
    case AsNone => Private
  }

  /** Translating back and forth is the identity on the IR's specifiers. */
  lemma TranslateToClang(a: AccessSpecifier)
    ensures TranslateAccessSpecifier(ToClang(a)) == a
  {
  }

  // ---------------------------------------------------------------------------
  // Declarations and IR

  datatype ParamDecl = ParamDecl(name: string, paramType: CcType)
  datatype FieldDecl = FieldDecl(name: string, fieldType: CcType, access: ClangAccess)

  /** A record; `isClass` is what `CXXRecordDecl::isClass` says and only matters for a C++ record. */
  datatype RecordDecl = RecordDecl(name: string, isCxxRecord: bool, isClass: bool, fields: seq<FieldDecl>)

  /** A function, with the name clang's mangler gives it. */
  datatype FunctionDecl = FunctionDecl(name: string, mangledName: string, params: seq<ParamDecl>,
                                       returnType: CcType, isInlined: bool)

  datatype FuncParam = FuncParam(paramType: IrType, identifier: string)
  datatype Func = Func(identifier: string, mangledName: string, returnType: IrType, params: seq<FuncParam>, isInline: bool)
  datatype Field = Field(identifier: string, fieldType: IrType, access: AccessSpecifier)
  datatype Record = Record(identifier: string, fields: seq<Field>)
  datatype HeaderName = HeaderName(name: string)

  /** The parameters converted in order, or `None` if any parameter's type does not convert. */
  function ConvertParams(params: seq<ParamDecl>): (r: Option<seq<FuncParam>>)
    ensures r.Some? <==> forall i :: 0 <= i < |params| ==> ConvertType(params[i].paramType).Success?
    ensures r.Some? ==> |r.value| == |params|
    ensures r.Some? ==> forall i :: 0 <= i < |params| ==>
      r.value[i] == FuncParam(ConvertType(params[i].paramType).value, params[i].name)
  {
    if params == [] then Some([])
    else
      var init := ConvertParams(params[..|params| - 1]);
      var last := params[|params| - 1];
      var lastType := ConvertType(last.paramType);
      if init.Some? && lastType.Success? then Some(init.value + [FuncParam(lastType.value, last.name)])
      else None
  }

  /** The access a record's fields have when they carry no specifier: private in a `class`, public otherwise. */
  function DefaultAccess(r: RecordDecl): ClangAccess
  {
    if r.isCxxRecord && r.isClass then AsPrivate else AsPublic
  }

  /** A field's effective access: its own specifier, or the record's default when it has none. */
  function EffectiveAccess(declared: ClangAccess, default: ClangAccess): ClangAccess
  {
    if declared == AsNone then default else declared
  }

  /** The fields converted in order, or `None` if any field's type does not convert. */
  function ConvertFields(fields: seq<FieldDecl>, default: ClangAccess): (r: Option<seq<Field>>)
    ensures r.Some? <==> forall i :: 0 <= i < |fields| ==> ConvertType(fields[i].fieldType).Success?
    ensures r.Some? ==> |r.value| == |fields|
    ensures r.Some? ==> forall i :: 0 <= i < |fields| ==>
      r.value[i] == Field(fields[i].name, ConvertType(fields[i].fieldType).value,
                          TranslateAccessSpecifier(EffectiveAccess(fields[i].access, default)))
  {
    if fields == [] then Some([])
    else
      var init := ConvertFields(fields[..|fields| - 1], default);
      var last := fields[|fields| - 1];
      var lastType := ConvertType(last.fieldType);
      if init.Some? && lastType.Success? then
        Some(init.value + [Field(last.name, lastType.value, TranslateAccessSpecifier(EffectiveAccess(last.access, default)))])
      else None
  }

  /** The IR entry for a function, present exactly when every parameter type and the return type convert. */
  function ImportFunction(f: FunctionDecl): (r: Option<Func>)
    ensures r.Some? <==>
      ConvertType(f.returnType).Success? && forall i :: 0 <= i < |f.params| ==> ConvertType(f.params[i].paramType).Success?
    ensures r.Some? ==>
      && r.value.identifier == f.name && r.value.mangledName == f.mangledName
      && r.value.isInline == f.isInlined && r.value.returnType == ConvertType(f.returnType).value
      && |r.value.params| == |f.params|
      && forall i :: 0 <= i < |f.params| ==>
           r.value.params[i] == FuncParam(ConvertType(f.params[i].paramType).value, f.params[i].name)
  {
    var params := ConvertParams(f.params);
    var returnType := ConvertType(f.returnType);
    if params.Some? && returnType.Success? then
      Some(Func(f.name, f.mangledName, returnType.value, params.value, f.isInlined))
    else None
  }

  /** The IR entry for a record, present exactly when every field type converts. */
  function ImportRecord(r: RecordDecl): (rec: Option<Record>)
    ensures rec.Some? <==> forall i :: 0 <= i < |r.fields| ==> ConvertType(r.fields[i].fieldType).Success?
    ensures rec.Some? ==> rec.value.identifier == r.name && |rec.value.fields| == |r.fields|
    ensures rec.Some? ==> forall i :: 0 <= i < |r.fields| ==>
      rec.value.fields[i] == Field(r.fields[i].name, ConvertType(r.fields[i].fieldType).value,
                                   TranslateAccessSpecifier(EffectiveAccess(r.fields[i].access, DefaultAccess(r))))
  {
    var fields := ConvertFields(r.fields, DefaultAccess(r));
    if fields.Some? then Some(Record(r.name, fields.value)) else None
  }

  /**
   * The `AS_none` case of `TranslateAccessSpecifier`, a failed assertion in the
   * C++ code, is never reached from a record: a field without its own specifier
   * takes the record's default.
   */
  lemma NoNoneAccessInRecord(r: RecordDecl, i: nat)
    requires i < |r.fields|
    ensures EffectiveAccess(r.fields[i].access, DefaultAccess(r)) != AsNone
  {
  }

  /**
   * In an imported record a field without a specifier is private in a `class` and
   * public in a `struct` or a C record; an explicit specifier is kept.
   */
  lemma ImportRecordAccess(r: RecordDecl, i: nat)
    requires ImportRecord(r).Some? && i < |r.fields|
    ensures r.fields[i].access == AsNone && r.isCxxRecord && r.isClass ==> ImportRecord(r).value.fields[i].access == Private
    ensures r.fields[i].access == AsNone && !(r.isCxxRecord && r.isClass) ==> ImportRecord(r).value.fields[i].access == Public
    ensures r.fields[i].access != AsNone ==> ToClang(ImportRecord(r).value.fields[i].access) == r.fields[i].access
  {
    var fields := ConvertFields(r.fields, DefaultAccess(r));
    assert ImportRecord(r).value.fields == fields.value;
  }

  function OptionToSeq<T>(o: Option<T>): (s: seq<T>)
    ensures |s| <= 1
    ensures o.Some? ==> s == [o.value]
    ensures o.None? ==> s == []
  {
    if o.Some? then [o.value] else []
  }

  function HeaderNames(names: seq<string>): (r: seq<HeaderName>)
    ensures |r| == |names|
    ensures forall i :: 0 <= i < |names| ==> r[i] == HeaderName(names[i])
  {
    if names == [] then [] else HeaderNames(names[..|names| - 1]) + [HeaderName(names[|names| - 1])]
  }

  // ---------------------------------------------------------------------------
  // Traversal, as a function of the visitor's state

  type DeclId = nat

  datatype DeclKind = FunctionKind(func: FunctionDecl) | RecordKind(record: RecordDecl) | OtherKind

  /** A declaration: the identity of its canonical declaration, what it is, and the declarations under it. */
  datatype Decl = Decl(canonical: DeclId, kind: DeclKind, children: seq<Decl>)

  datatype TranslationUnit = TranslationUnit(canonical: DeclId, decls: seq<Decl>)
  {
    function AsDecl(): Decl { Decl(canonical, OtherKind, decls) }
  }

  /** The part of the visitor's state that traversal changes. */
  datatype VisitState = VisitState(seen: set<DeclId>, functions: seq<Func>, records: seq<Record>)

  /** The IR only grows: seen declarations are kept and entries are only appended. */
  predicate Extends(st: VisitState, st': VisitState)
  {
    && st.seen <= st'.seen
    && |st.functions| <= |st'.functions| && st'.functions[..|st.functions|] == st.functions
    && |st.records| <= |st'.records| && st'.records[..|st.records|] == st.records
  }

  lemma ExtendsTransitive(a: VisitState, b: VisitState, c: VisitState)
    requires Extends(a, b) && Extends(b, c)
    ensures Extends(a, c)
  {
    assert c.functions[..|a.functions|] == c.functions[..|b.functions|][..|a.functions|];
    assert c.records[..|a.records|] == c.records[..|b.records|][..|a.records|];
  }

  /**
   * The visit hooks: a function appends its import, if any, to the functions and a
   * record its import to the records; nothing else changes.
   */
  function Visit(d: Decl, st: VisitState): (st': VisitState)
    ensures Extends(st, st') && st'.seen == st.seen
    ensures d.kind.FunctionKind? ==>
      st'.functions == st.functions + OptionToSeq(ImportFunction(d.kind.func)) && st'.records == st.records
    ensures d.kind.RecordKind? ==>
      st'.records == st.records + OptionToSeq(ImportRecord(d.kind.record)) && st'.functions == st.functions
    ensures d.kind.OtherKind? ==> st' == st
  {
    match d.kind
    case FunctionKind(f) => st.(functions := st.functions + OptionToSeq(ImportFunction(f)))
    case RecordKind(r) => st.(records := st.records + OptionToSeq(ImportRecord(r)))
    case OtherKind => st
  }

  /** `AstVisitor::TraverseDecl`: traverse only a declaration whose canonical declaration is new. */
  function TraverseSpec(d: Decl, st: VisitState): VisitState
    decreases d, 2, 0
  {
    if d.canonical in st.seen then st
    else BaseTraverseSpec(d, st.(seen := st.seen + {d.canonical}))
  }

  /** The base traversal: visit the declaration, then traverse its children in order. */
  function BaseTraverseSpec(d: Decl, st: VisitState): VisitState
    decreases d, 1, 0
  {
    TraverseChildrenSpec(d, 0, Visit(d, st))
  }

  function TraverseChildrenSpec(d: Decl, i: nat, st: VisitState): VisitState
    requires i <= |d.children|
    decreases d, 0, |d.children| - i
  {
    if i == |d.children| then st
    else TraverseChildrenSpec(d, i + 1, TraverseSpec(d.children[i], st))
  }

  lemma {:induction false} TraverseExtends(d: Decl, st: VisitState)
    ensures Extends(st, TraverseSpec(d, st))
    decreases d, 2, 0
  {
    if d.canonical !in st.seen {
      var st1 := st.(seen := st.seen + {d.canonical});
      BaseTraverseExtends(d, st1);
      ExtendsTransitive(st, st1, TraverseSpec(d, st));
    }
  }

  lemma {:induction false} BaseTraverseExtends(d: Decl, st: VisitState)
    ensures Extends(st, BaseTraverseSpec(d, st))
    decreases d, 1, 0
  {
    TraverseChildrenExtends(d, 0, Visit(d, st));
    ExtendsTransitive(st, Visit(d, st), BaseTraverseSpec(d, st));
  }

  lemma {:induction false} TraverseChildrenExtends(d: Decl, i: nat, st: VisitState)
    requires i <= |d.children|
    ensures Extends(st, TraverseChildrenSpec(d, i, st))
    decreases d, 0, |d.children| - i
  {
    if i < |d.children| {
      var st1 := TraverseSpec(d.children[i], st);
      TraverseExtends(d.children[i], st);
      TraverseChildrenExtends(d, i + 1, st1);
      ExtendsTransitive(st, st1, TraverseChildrenSpec(d, i, st));
    }
  }

  /** After traversal the declaration's canonical declaration is among the seen ones. */
  lemma TraverseMarksSeen(d: Decl, st: VisitState)
    ensures d.canonical in TraverseSpec(d, st).seen
  {
    if d.canonical !in st.seen {
      BaseTraverseExtends(d, st.(seen := st.seen + {d.canonical}));
    }
  }

  /**
   * A redeclaration (same canonical declaration) met after the first one is not
   * traversed again; in particular a second traversal changes nothing.
   */
  lemma RedeclarationSkipped(d1: Decl, d2: Decl, st: VisitState)
    requires d1.canonical == d2.canonical
    ensures TraverseSpec(d2, TraverseSpec(d1, st)) == TraverseSpec(d1, st)
  {
    TraverseMarksSeen(d1, st);
  }

  /**
   * The first time a function declaration is met, its IR entry, if its types
   * convert, is the next one appended: the visit runs before its children.
   */
  lemma FirstVisitEmitsFunction(d: Decl, st: VisitState)
    requires d.kind.FunctionKind? && d.canonical !in st.seen
    requires ImportFunction(d.kind.func).Some?
    ensures |TraverseSpec(d, st).functions| > |st.functions|
    ensures TraverseSpec(d, st).functions[|st.functions|] == ImportFunction(d.kind.func).value
  {
    var st1 := Visit(d, st.(seen := st.seen + {d.canonical}));
    assert st1.functions == st.functions + [ImportFunction(d.kind.func).value];
    TraverseChildrenExtends(d, 0, st1);
    var st0 := st.(seen := st.seen + {d.canonical});
    var st2 := TraverseSpec(d, st);
    assert st2 == BaseTraverseSpec(d, st0);
    assert st2 == TraverseChildrenSpec(d, 0, st1);
    assert st2.functions[..|st1.functions|] == st1.functions;
    assert st2.functions[|st.functions|] == st2.functions[..|st1.functions|][|st.functions|];
  }

  /** The same for a record declaration. */
  lemma FirstVisitEmitsRecord(d: Decl, st: VisitState)
    requires d.kind.RecordKind? && d.canonical !in st.seen
    requires ImportRecord(d.kind.record).Some?
    ensures |TraverseSpec(d, st).records| > |st.records|
    ensures TraverseSpec(d, st).records[|st.records|] == ImportRecord(d.kind.record).value
  {
    var st1 := Visit(d, st.(seen := st.seen + {d.canonical}));
    assert st1.records == st.records + [ImportRecord(d.kind.record).value];
    TraverseChildrenExtends(d, 0, st1);
    var st0 := st.(seen := st.seen + {d.canonical});
    var st2 := TraverseSpec(d, st);
    assert st2 == BaseTraverseSpec(d, st0);
    assert st2 == TraverseChildrenSpec(d, 0, st1);
    assert st2.records[..|st1.records|] == st1.records;
    assert st2.records[|st.records|] == st2.records[..|st1.records|][|st.records|];
  }

  // ---------------------------------------------------------------------------
  // The visitor

  class Visitor {
    const publicHeaderNames: seq<string>
    var usedHeaders: seq<HeaderName>
    var functions: seq<Func>
    var records: seq<Record>
    var seenDecls: set<DeclId>

    constructor (publicHeaderNames: seq<string>)
      ensures this.publicHeaderNames == publicHeaderNames
      ensures usedHeaders == [] && functions == [] && records == [] && seenDecls == {}
    {
      this.publicHeaderNames := publicHeaderNames;
      usedHeaders := [];
      functions := [];
      records := [];
      seenDecls := {};
    }

    function State(): VisitState
      reads this
    {
      VisitState(seenDecls, functions, records)
    }

    /** `AstVisitor::VisitFunctionDecl`: append the function if all its types convert; always continue. */
    method VisitFunctionDecl(f: FunctionDecl) returns (cont: bool)
      modifies this
      ensures cont
      ensures functions == old(functions) + OptionToSeq(ImportFunction(f))
      ensures records == old(records) && seenDecls == old(seenDecls) && usedHeaders == old(usedHeaders)
    {
      var params: seq<FuncParam> := [];
      for i := 0 to |f.params|
        invariant ConvertParams(f.params[..i]) == Some(params)
      {
        var paramType := ConvertType(f.params[i].paramType);
        if paramType.Failure? {
          return true;
        }
        assert f.params[..i + 1][..i] == f.params[..i];
        params := params + [FuncParam(paramType.value, f.params[i].name)];
      }
      assert f.params[..|f.params|] == f.params;
      var returnType := ConvertType(f.returnType);
      if returnType.Failure? {
        return true;
      }
      functions := functions + [Func(f.name, f.mangledName, returnType.value, params, f.isInlined)];
      return true;
    }

    /** `AstVisitor::VisitRecordDecl`: append the record if all its field types convert; always continue. */
    method VisitRecordDecl(r: RecordDecl) returns (cont: bool)
      modifies this
      ensures cont
      ensures records == old(records) + OptionToSeq(ImportRecord(r))
      ensures functions == old(functions) && seenDecls == old(seenDecls) && usedHeaders == old(usedHeaders)
    {
      var fields: seq<Field> := [];
      var defaultAccess := AsPublic;
      if r.isCxxRecord && r.isClass {
        defaultAccess := AsPrivate;
      }
      for i := 0 to |r.fields|
        invariant ConvertFields(r.fields[..i], defaultAccess) == Some(fields)
      {
        var fieldType := ConvertType(r.fields[i].fieldType);
        if fieldType.Failure? {
          return true;
        }
        var access := r.fields[i].access;
        if access == AsNone {
          access := defaultAccess;
        }
        assert r.fields[..i + 1][..i] == r.fields[..i];
        fields := fields + [Field(r.fields[i].name, fieldType.value, TranslateAccessSpecifier(access))];
      }
      assert r.fields[..|r.fields|] == r.fields;
      records := records + [Record(r.name, fields)];
      return true;
    }

    /** `AstVisitor::TraverseDecl`: remember the canonical declaration and traverse it the first time only. */
    method TraverseDecl(d: Decl) returns (cont: bool)
      modifies this
      ensures cont
      ensures State() == TraverseSpec(d, old(State()))
      ensures usedHeaders == old(usedHeaders)
      decreases d, 2, 0
    {
      if d.canonical !in seenDecls {
        seenDecls := seenDecls + {d.canonical};
        cont := BaseTraverseDecl(d);
      } else {
        cont := true;
      }
    }

    /** The base traversal: the visit hook of the declaration's kind, then its children. */
    method BaseTraverseDecl(d: Decl) returns (cont: bool)
      modifies this
      ensures cont
      ensures State() == BaseTraverseSpec(d, old(State()))
      ensures usedHeaders == old(usedHeaders)
      decreases d, 1, 0
    {
      match d.kind {
        case FunctionKind(f) => cont := VisitFunctionDecl(f);
        case RecordKind(r) => cont := VisitRecordDecl(r);
        case OtherKind => cont := true;
      }
      ghost var afterVisit := State();
      assert afterVisit == Visit(d, old(State()));
      for i := 0 to |d.children|
        invariant TraverseChildrenSpec(d, 0, afterVisit) == TraverseChildrenSpec(d, i, State())
        invariant usedHeaders == old(usedHeaders)
      {
        assert d.children[i] < d;
        cont := TraverseDecl(d.children[i]);
      }
      cont := true;
    }

    /**
     * `AstVisitor::TraverseTranslationUnitDecl`: append the public headers in
     * order after those already used, then traverse the translation unit.
     */
    method TraverseTranslationUnitDecl(tu: TranslationUnit) returns (cont: bool)
      modifies this
      ensures cont
      ensures usedHeaders == old(usedHeaders) + HeaderNames(publicHeaderNames)
      ensures State() == BaseTraverseSpec(tu.AsDecl(), old(State()))
    {
      for i := 0 to |publicHeaderNames|
        invariant usedHeaders == old(usedHeaders) + HeaderNames(publicHeaderNames[..i])
        invariant State() == old(State())
      {
        assert publicHeaderNames[..i + 1][..i] == publicHeaderNames[..i];
        usedHeaders := usedHeaders + [HeaderName(publicHeaderNames[i])];
      }
      assert publicHeaderNames[..|publicHeaderNames|] == publicHeaderNames;
      cont := BaseTraverseDecl(tu.AsDecl());
    }
  }
}
