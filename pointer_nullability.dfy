/**
 * The flow-sensitive pointer nullability analysis: transfer functions that keep,
 * for every pointer value, a boolean formula meaning "this pointer is not null",
 * record dereferences the flow condition does not prove safe, and strengthen the
 * flow condition at pointer comparisons.
 *
 * The lattice (not-null properties and violations) and the dataflow environment
 * (storage locations, values, flow condition) are two objects updated in place.
 * Values, storage locations and atoms are numbered from one counter, so a newly
 * made one is never in use. Whether the flow condition implies a formula is
 * decided by an oracle passed in by the caller.
 */
module PointerNullabilityAnalysis {
  import opened Wrappers

  type ExprId = nat
  type StorageLocation = nat

  // ---------------------------------------------------------------------------
  // Boolean formulas

  datatype Formula =
    | Atom(id: nat)
    | Literal(value: bool)
    | Not(operand: Formula)
    | And(left: Formula, right: Formula)
    | Implies(premise: Formula, conclusion: Formula)

  /** An assignment of truth values to atoms. */
  type Valuation = nat -> bool

  function Eval(f: Formula, v: Valuation): bool
  {
    match f
    case Atom(id) => v(id)
    case Literal(b) => b
    case Not(g) => !Eval(g, v)
    case And(l, r) => Eval(l, v) && Eval(r, v)
    case Implies(p, c) => !Eval(p, v) || Eval(c, v)
  }

  /** The valuation makes every conjunct of a flow condition true. */
  predicate Satisfies(conjuncts: seq<Formula>, v: Valuation)
  {
    forall i :: 0 <= i < |conjuncts| ==> Eval(conjuncts[i], v)
  }

  predicate Occurs(id: nat, f: Formula)
  {
    match f
    case Atom(a) => a == id
    case Literal(_) => false
    case Not(g) => Occurs(id, g)
    case And(l, r) => Occurs(id, l) || Occurs(id, r)
    case Implies(p, c) => Occurs(id, p) || Occurs(id, c)
  }

  predicate AtomsBelow(f: Formula, n: nat)
  {
    match f
    case Atom(a) => a < n
    case Literal(_) => true
    case Not(g) => AtomsBelow(g, n)
    case And(l, r) => AtomsBelow(l, n) && AtomsBelow(r, n)
    case Implies(p, c) => AtomsBelow(p, n) && AtomsBelow(c, n)
  }

  /** A formula built only from atoms below `n` does not mention atom `n`. */
  lemma {:induction false} AtomsBelowExcludes(f: Formula, n: nat)
    requires AtomsBelow(f, n)
    ensures !Occurs(n, f)
  {
    match f
    case Atom(_) =>
    case Literal(_) =>
    case Not(g) => AtomsBelowExcludes(g, n);
    case And(l, r) => AtomsBelowExcludes(l, n); AtomsBelowExcludes(r, n);
    case Implies(p, c) => AtomsBelowExcludes(p, n); AtomsBelowExcludes(c, n);
  }

  lemma {:induction false} AtomsBelowMonotone(f: Formula, n: nat, m: nat)
    requires AtomsBelow(f, n) && n <= m
    ensures AtomsBelow(f, m)
  {
    match f
    case Atom(_) =>
    case Literal(_) =>
    case Not(g) => AtomsBelowMonotone(g, n, m);
    case And(l, r) => AtomsBelowMonotone(l, n, m); AtomsBelowMonotone(r, n, m);
    case Implies(p, c) => AtomsBelowMonotone(p, n, m); AtomsBelowMonotone(c, n, m);
  }

  // ---------------------------------------------------------------------------
  // Lattice and environment

  datatype Value =
    | PointerValue(id: nat, pointee: StorageLocation)
    | BoolValue(formula: Formula)

  /** The analysis lattice: not-null properties keyed by pointer value, and the violations found. */
  class Lattice {
    var notNull: map<nat, Formula>
    var violations: seq<ExprId>

    constructor ()
      ensures notNull == map[] && violations == []
    {
      notNull := map[];
      violations := [];
    }
  }

  /** The dataflow environment of one program point. */
  class Environment {
    var exprLoc: map<ExprId, StorageLocation>
    var locValue: map<StorageLocation, Value>
    var flowCondition: seq<Formula>
    var nextFresh: nat

    constructor ()
      ensures exprLoc == map[] && locValue == map[] && flowCondition == [] && nextFresh == 0
    {
      exprLoc := map[];
      locValue := map[];
      flowCondition := [];
      nextFresh := 0;
    }

    /** `Env.getValue(expr)`: the value stored at the expression's location, if any. */
    function GetValue(e: ExprId): Option<Value>
      reads this
    {
      if e in exprLoc && exprLoc[e] in locValue then Some(locValue[exprLoc[e]]) else None
    }
  }

  /** Claims of a decision procedure: `oracle(fc, f)` answers "does the flow condition fc imply f". */
  type Oracle = (seq<Formula>, Formula) -> bool

  /** An oracle that answers yes only when every valuation satisfying the flow condition makes f true. */
  ghost predicate SoundOracle(oracle: Oracle)
  {
    forall fc, f, v :: oracle(fc, f) && Satisfies(fc, v) ==> Eval(f, v)
  }

  predicate ValueBelow(v: Value, n: nat)
  {
    match v
    case PointerValue(id, pointee) => id < n && pointee < n
    case BoolValue(f) => AtomsBelow(f, n)
  }

  /** Everything allocated so far is numbered below the environment's counter. */
  ghost predicate Valid(lat: Lattice, env: Environment)
    reads lat, env
  {
    && (forall p :: p in lat.notNull ==> p < env.nextFresh && AtomsBelow(lat.notNull[p], env.nextFresh))
    && (forall i :: 0 <= i < |env.flowCondition| ==> AtomsBelow(env.flowCondition[i], env.nextFresh))
    && (forall e :: e in env.exprLoc ==> env.exprLoc[e] < env.nextFresh)
    && (forall l :: l in env.locValue ==> l < env.nextFresh && ValueBelow(env.locValue[l], env.nextFresh))
  }

  predicate IsPointerOrAbsent(v: Option<Value>)
  {
    v.None? || v.value.PointerValue?
  }

  /** The expression's value is a pointer that has a not-null property. */
  predicate HasNotNullProperty(e: ExprId, lat: Lattice, env: Environment)
    reads lat, env
  {
    var v := env.GetValue(e);
    v.Some? && v.value.PointerValue? && v.value.id in lat.notNull
  }

  /** `getPointerNotNullProperty`: the analysis asserts that the property exists. */
  function NotNullProperty(e: ExprId, lat: Lattice, env: Environment): (f: Formula)
    reads lat, env
    requires HasNotNullProperty(e, lat, env)
    ensures f in lat.notNull.Values
    ensures Valid(lat, env) ==> AtomsBelow(f, env.nextFresh)
  {
    lat.notNull[env.GetValue(e).value.id]
  }

  // ---------------------------------------------------------------------------
  // Transfer handlers

  /**
   * The effect of initialising a pointer's not-null property: a pointer value
   * without a property gets a fresh atom that no existing property mentions; a
   * pointer with a property, or an expression without a value, is left as is.
   */
  twostate predicate InitialisedProperty(e: ExprId, lat: Lattice, env: Environment)
    requires old(IsPointerOrAbsent(env.GetValue(e)))
    reads lat, env
  {
    && lat.violations == old(lat.violations)
    && env.exprLoc == old(env.exprLoc) && env.locValue == old(env.locValue)
    && env.flowCondition == old(env.flowCondition)
    && var v := old(env.GetValue(e));
       if v.Some? && v.value.id !in old(lat.notNull) then
         && lat.notNull == old(lat.notNull)[v.value.id := Atom(old(env.nextFresh))]
         && env.nextFresh == old(env.nextFresh) + 1
         && forall p :: p in old(lat.notNull) ==> !Occurs(old(env.nextFresh), old(lat.notNull)[p])
       else
         lat.notNull == old(lat.notNull) && env.nextFresh == old(env.nextFresh)
  }

  /** A pointer variable or member reference: give its value a fresh atom unless it has a property. */
  method InitialisePointerNotNullProperty(e: ExprId, lat: Lattice, env: Environment)
    requires Valid(lat, env)
    requires IsPointerOrAbsent(env.GetValue(e))
    modifies lat, env
    ensures Valid(lat, env)
    ensures InitialisedProperty(e, lat, env)
  {
    var v := env.GetValue(e);
    if v.Some? {
      var pointer := v.value.id;
      if pointer !in lat.notNull {
        var atom := Atom(env.nextFresh);
        forall p | p in lat.notNull
          ensures !Occurs(env.nextFresh, lat.notNull[p])
        {
          AtomsBelowExcludes(lat.notNull[p], env.nextFresh);
        }
        ValidAfterAllocation(lat, env);
        env.nextFresh := env.nextFresh + 1;
        lat.notNull := lat.notNull[pointer := atom];
      }
    }
  }

  /** Raising the counter keeps everything allocated below it. */
  lemma ValidAfterAllocation(lat: Lattice, env: Environment)
    requires Valid(lat, env)
    ensures forall p :: p in lat.notNull ==> AtomsBelow(lat.notNull[p], env.nextFresh + 1)
    ensures forall i :: 0 <= i < |env.flowCondition| ==> AtomsBelow(env.flowCondition[i], env.nextFresh + 1)
    ensures forall l :: l in env.locValue ==> ValueBelow(env.locValue[l], env.nextFresh + 1)
  {
    forall p | p in lat.notNull
      ensures AtomsBelow(lat.notNull[p], env.nextFresh + 1)
    {
      AtomsBelowMonotone(lat.notNull[p], env.nextFresh, env.nextFresh + 1);
    }
    forall i | 0 <= i < |env.flowCondition|
      ensures AtomsBelow(env.flowCondition[i], env.nextFresh + 1)
    {
      AtomsBelowMonotone(env.flowCondition[i], env.nextFresh, env.nextFresh + 1);
    }
    forall l | l in env.locValue
      ensures ValueBelow(env.locValue[l], env.nextFresh + 1)
    {
      if env.locValue[l].BoolValue? {
        AtomsBelowMonotone(env.locValue[l].formula, env.nextFresh, env.nextFresh + 1);
      }
    }
  }

  /**
   * `nullptr`: make a storage location and a pointer value for the literal if it
   * has none, then make its not-null property `false` unless it already has one.
   */
  method TransferNullPointerLiteral(e: ExprId, lat: Lattice, env: Environment)
    requires Valid(lat, env)
    requires IsPointerOrAbsent(env.GetValue(e))
    modifies lat, env
    ensures Valid(lat, env)
    ensures NullLiteralEffect(e, lat, env)
  {
    var v := env.GetValue(e);
    var pointer;
    if v.None? {
      pointer := CreatePointerValue(e, lat, env);
    } else {
      pointer := v.value.id;
    }
    if pointer !in lat.notNull {
      lat.notNull := lat.notNull[pointer := Literal(false)];
    }
  }

  /**
   * The effect of the null literal handler: a literal without a value gets a new
   * location bound to it, holding a new pointer value; the literal's property
   * becomes `false` unless it already has one.
   */
  twostate predicate NullLiteralEffect(e: ExprId, lat: Lattice, env: Environment)
    requires old(IsPointerOrAbsent(env.GetValue(e)))
    reads lat, env
  {
    && lat.violations == old(lat.violations) && env.flowCondition == old(env.flowCondition)
    && (var v := old(env.GetValue(e));
        if v.None? then
          var loc, pointer := old(env.nextFresh), old(env.nextFresh) + 1;
          && env.exprLoc == old(env.exprLoc)[e := loc]
          && env.locValue == old(env.locValue)[loc := PointerValue(pointer, loc)]
          && env.nextFresh == old(env.nextFresh) + 2
          && lat.notNull == old(lat.notNull)[pointer := Literal(false)]
        else
          && env.exprLoc == old(env.exprLoc) && env.locValue == old(env.locValue)
          && env.nextFresh == old(env.nextFresh)
          && lat.notNull == if v.value.id in old(lat.notNull) then old(lat.notNull)
                            else old(lat.notNull)[v.value.id := Literal(false)])
    && HasNotNullProperty(e, lat, env)
    && (old(HasNotNullProperty(e, lat, env)) ==> NotNullProperty(e, lat, env) == old(NotNullProperty(e, lat, env)))
    && (!old(HasNotNullProperty(e, lat, env)) ==> NotNullProperty(e, lat, env) == Literal(false))
  }

  /** A new storage location for the expression, holding a new pointer value that points to it. */
  method CreatePointerValue(e: ExprId, lat: Lattice, env: Environment) returns (pointer: nat)
    requires Valid(lat, env)
    modifies env
    ensures Valid(lat, env)
    ensures pointer == old(env.nextFresh) + 1 && env.nextFresh == old(env.nextFresh) + 2
    ensures env.exprLoc == old(env.exprLoc)[e := old(env.nextFresh)]
    ensures env.locValue == old(env.locValue)[old(env.nextFresh) := PointerValue(pointer, old(env.nextFresh))]
    ensures env.flowCondition == old(env.flowCondition)
  {
    ValidAfterAllocation(lat, env);
    var loc := env.nextFresh;
    env.nextFresh := env.nextFresh + 1;
    ValidAfterAllocation(lat, env);
    pointer := env.nextFresh;
    env.nextFresh := env.nextFresh + 1;
    env.exprLoc := env.exprLoc[e := loc];
    env.locValue := env.locValue[loc := PointerValue(pointer, loc)];
  }

  /** The effect of `&x`: the resulting pointer's property is overwritten with `true`; the environment is unchanged. */
  twostate predicate AddrOfEffect(e: ExprId, lat: Lattice, env: Environment)
    requires old(env.GetValue(e).Some? && env.GetValue(e).value.PointerValue?)
    reads lat, env
  {
    && lat.violations == old(lat.violations)
    && unchanged(env)
    && lat.notNull == old(lat.notNull)[old(env.GetValue(e)).value.id := Literal(true)]
    && HasNotNullProperty(e, lat, env) && NotNullProperty(e, lat, env) == Literal(true)
  }

  /** `&x`: the resulting pointer is known not null, whatever was recorded before. */
  method TransferAddrOf(e: ExprId, lat: Lattice, env: Environment)
    requires Valid(lat, env)
    requires env.GetValue(e).Some? && env.GetValue(e).value.PointerValue?
    modifies lat
    ensures Valid(lat, env)
    ensures AddrOfEffect(e, lat, env)
  {
    var pointer := env.GetValue(e).value.id;
    lat.notNull := lat.notNull[pointer := Literal(true)];
  }

  /**
   * The effect of `*p`: one violation at `p` is appended exactly when the oracle
   * does not find that the flow condition implies `p`'s property.
   */
  twostate predicate DereferenceEffect(pointerExpr: ExprId, lat: Lattice, env: Environment, oracle: Oracle)
    requires old(HasNotNullProperty(pointerExpr, lat, env))
    reads lat, env
  {
    && lat.notNull == old(lat.notNull) && unchanged(env)
    && lat.violations == old(lat.violations)
       + (if oracle(old(env.flowCondition), old(NotNullProperty(pointerExpr, lat, env))) then [] else [pointerExpr])
  }

  /**
   * `*p`: record one violation at `p` when the flow condition does not imply that
   * `p` is not null. Repeated dereferences each record their own.
   */
  method TransferDereference(pointerExpr: ExprId, lat: Lattice, env: Environment, oracle: Oracle)
    requires Valid(lat, env)
    requires HasNotNullProperty(pointerExpr, lat, env)
    modifies lat
    ensures Valid(lat, env)
    ensures DereferenceEffect(pointerExpr, lat, env, oracle)
    ensures SoundOracle(oracle) && lat.violations == old(lat.violations) ==>
      forall v :: Satisfies(env.flowCondition, v) ==> Eval(NotNullProperty(pointerExpr, lat, env), v)
  {
    var notNull := NotNullProperty(pointerExpr, lat, env);
    if !oracle(env.flowCondition, notNull) {
      lat.violations := lat.violations + [pointerExpr];
    }
  }

  /**
   * A dereference of `nullptr` (not-null property `false`) is always reported by a
   * sound oracle, as long as the program point is reachable (its flow condition
   * has a satisfying valuation).
   */
  lemma NullDereferenceReported(oracle: Oracle, fc: seq<Formula>, v: Valuation)
    requires SoundOracle(oracle)
    requires Satisfies(fc, v)
    ensures !oracle(fc, Literal(false))
  {
  }

  datatype Opcode = EQ | NE | OtherOpcode

  /** The formula that holds when the two pointers are equal. */
  function PointerEquality(op: Opcode, comparison: Formula): Formula
  {
    if op == EQ then comparison else Not(comparison)
  }

  /** The formula that holds when the two pointers differ. */
  function PointerInequality(op: Opcode, comparison: Formula): Formula
  {
    if op == EQ then Not(comparison) else comparison
  }

  /** The three implications a pointer comparison adds to the flow condition, in order. */
  function ComparisonConjuncts(op: Opcode, comparison: Formula, lhs: Formula, rhs: Formula): seq<Formula>
  {
    var eq, ne := PointerEquality(op, comparison), PointerInequality(op, comparison);
    [ Implies(And(Not(lhs), Not(rhs)), eq),
      Implies(And(Not(lhs), rhs), ne),
      Implies(And(lhs, Not(rhs)), ne) ]
  }

  /**
   * The conjuncts hold exactly in the valuations where two null pointers compare
   * equal and a null pointer differs from a non-null one; `==` uses the comparison
   * value as is and `!=` its negation.
   */
  lemma ComparisonConjunctsMeaning(op: Opcode, c: Formula, lhs: Formula, rhs: Formula, v: Valuation)
    requires op == EQ || op == NE
    ensures Eval(PointerEquality(op, c), v) == (if op == EQ then Eval(c, v) else !Eval(c, v))
    ensures Eval(PointerInequality(op, c), v) == !Eval(PointerEquality(op, c), v)
    ensures Satisfies(ComparisonConjuncts(op, c, lhs, rhs), v) <==>
      && (!Eval(lhs, v) && !Eval(rhs, v) ==> Eval(PointerEquality(op, c), v))
      && (Eval(lhs, v) != Eval(rhs, v) ==> !Eval(PointerEquality(op, c), v))
  {
    var conj := ComparisonConjuncts(op, c, lhs, rhs);
    var l, r, eq := Eval(lhs, v), Eval(rhs, v), Eval(PointerEquality(op, c), v);
    assert Eval(Not(lhs), v) == !l && Eval(Not(rhs), v) == !r;
    assert Eval(And(Not(lhs), Not(rhs)), v) == (!l && !r);
    assert Eval(And(Not(lhs), rhs), v) == (!l && r);
    assert Eval(And(lhs, Not(rhs)), v) == (l && !r);
    assert Eval(conj[0], v) == (!(!l && !r) || eq);
    assert Eval(conj[1], v) == (!(!l && r) || !eq);
    assert Eval(conj[2], v) == (!(l && !r) || !eq);
    assert Satisfies(conj, v) <==> Eval(conj[0], v) && Eval(conj[1], v) && Eval(conj[2], v);
  }

  /** The added conjuncts mention only atoms that their parts mention. */
  lemma ComparisonConjunctsBelow(op: Opcode, c: Formula, lhs: Formula, rhs: Formula, n: nat)
    requires AtomsBelow(c, n) && AtomsBelow(lhs, n) && AtomsBelow(rhs, n)
    ensures forall i :: 0 <= i < 3 ==> AtomsBelow(ComparisonConjuncts(op, c, lhs, rhs)[i], n)
  {
    var eq, ne := PointerEquality(op, c), PointerInequality(op, c);
    assert AtomsBelow(eq, n) && AtomsBelow(ne, n);
    assert AtomsBelow(Not(lhs), n) && AtomsBelow(Not(rhs), n);
    assert AtomsBelow(And(Not(lhs), Not(rhs)), n);
    assert AtomsBelow(And(Not(lhs), rhs), n);
    assert AtomsBelow(And(lhs, Not(rhs)), n);
  }

  /**
   * The effect of `p == q` / `p != q`: the flow condition gains the three
   * implications, in order, and loses nothing; the lattice is unchanged.
   */
  twostate predicate ComparisonEffect(e: ExprId, op: Opcode, lhs: ExprId, rhs: ExprId, lat: Lattice, env: Environment)
    requires old(env.GetValue(e).Some? && env.GetValue(e).value.BoolValue?)
    requires old(HasNotNullProperty(lhs, lat, env) && HasNotNullProperty(rhs, lat, env))
    reads lat, env
  {
    && unchanged(lat)
    && env.exprLoc == old(env.exprLoc) && env.locValue == old(env.locValue) && env.nextFresh == old(env.nextFresh)
    && env.flowCondition == old(env.flowCondition)
       + ComparisonConjuncts(op, old(env.GetValue(e)).value.formula,
                             old(NotNullProperty(lhs, lat, env)), old(NotNullProperty(rhs, lat, env)))
  }

  /** `p == q` / `p != q`: conjoin the three implications; nothing is removed from the flow condition. */
  method TransferNullCheckComparison(e: ExprId, op: Opcode, lhs: ExprId, rhs: ExprId, lat: Lattice, env: Environment)
    requires Valid(lat, env)
    requires env.GetValue(e).Some? && env.GetValue(e).value.BoolValue?
    requires op == EQ || op == NE
    requires HasNotNullProperty(lhs, lat, env) && HasNotNullProperty(rhs, lat, env)
    modifies env
    ensures Valid(lat, env)
    ensures ComparisonEffect(e, op, lhs, rhs, lat, env)
  {
    var comparison := env.GetValue(e).value.formula;
    var lhsNotNull := NotNullProperty(lhs, lat, env);
    var rhsNotNull := NotNullProperty(rhs, lat, env);
    var added := ComparisonConjuncts(op, comparison, lhsNotNull, rhsNotNull);
    assert env.exprLoc[e] in env.locValue && ValueBelow(env.locValue[env.exprLoc[e]], env.nextFresh);
    assert AtomsBelow(comparison, env.nextFresh);
    assert env.GetValue(lhs).value.id in lat.notNull && env.GetValue(rhs).value.id in lat.notNull;
    assert AtomsBelow(lhsNotNull, env.nextFresh) && AtomsBelow(rhsNotNull, env.nextFresh);
    ComparisonConjunctsBelow(op, comparison, lhsNotNull, rhsNotNull, env.nextFresh);
    env.flowCondition := env.flowCondition + added;
  }

  /**
   * The effect of `if (p)`: the cast expression gets a new location holding the
   * pointer's very property formula; nothing changes for a pointer without a value.
   */
  twostate predicate CastEffect(castExpr: ExprId, pointerExpr: ExprId, lat: Lattice, env: Environment)
    requires old(IsPointerOrAbsent(env.GetValue(pointerExpr)))
    requires old(env.GetValue(pointerExpr).Some? ==> env.GetValue(pointerExpr).value.id in lat.notNull)
    reads lat, env
  {
    && unchanged(lat)
    && env.flowCondition == old(env.flowCondition)
    && (old(env.GetValue(pointerExpr)).None? ==> unchanged(env))
    && (old(env.GetValue(pointerExpr)).Some? ==>
          && env.exprLoc == old(env.exprLoc)[castExpr := old(env.nextFresh)]
          && env.locValue == old(env.locValue)[old(env.nextFresh) := BoolValue(old(NotNullProperty(pointerExpr, lat, env)))]
          && env.nextFresh == old(env.nextFresh) + 1
          && env.GetValue(castExpr) == Some(BoolValue(old(NotNullProperty(pointerExpr, lat, env)))))
  }

  /**
   * `if (p)`: the boolean value of the implicit cast is the pointer's not-null
   * property itself, stored at a new location for the cast expression.
   */
  method TransferNullCheckImplicitCastPtrToBool(castExpr: ExprId, pointerExpr: ExprId, lat: Lattice, env: Environment)
    requires Valid(lat, env)
    requires IsPointerOrAbsent(env.GetValue(pointerExpr))
    requires env.GetValue(pointerExpr).Some? ==> env.GetValue(pointerExpr).value.id in lat.notNull
    modifies env
    ensures Valid(lat, env)
    ensures CastEffect(castExpr, pointerExpr, lat, env)
  {
    var v := env.GetValue(pointerExpr);
    if v.Some? {
      var notNull := lat.notNull[v.value.id];
      ValidAfterAllocation(lat, env);
      var loc := env.nextFresh;
      env.nextFresh := env.nextFresh + 1;
      env.locValue := env.locValue[loc := BoolValue(notNull)];
      env.exprLoc := env.exprLoc[castExpr := loc];
    }
  }

  // ---------------------------------------------------------------------------
  // Dispatch

  /** The patterns the transfer function recognises. */
  datatype Case =
    | PointerVariableReference
    | PointerMemberExpr
    | NullPointerLiteral
    | AddrOf
    | PointerDereference
    | PointerCheckBinOp
    | ImplicitCastPointerToBool

  /** The order in which the cases are tried; the first that matches handles the statement. */
  const DispatchOrder: seq<Case> := [PointerVariableReference, PointerMemberExpr, NullPointerLiteral,
                                     AddrOf, PointerDereference, PointerCheckBinOp, ImplicitCastPointerToBool]

  /**
   * A statement, with the set of patterns it matches, its sub-expression (operand
   * of `*` / `&`, the cast's operand with implicit nodes skipped) and, for a binary
   * operator, its operands and opcode.
   */
  datatype Stmt = Stmt(id: ExprId, matches: set<Case>, sub: ExprId, lhs: ExprId, rhs: ExprId, opcode: Opcode)

  /** The position of the first case in `order` that `matches` contains, or `|order|`. */
  function FirstMatch(matches: set<Case>, order: seq<Case>): (k: nat)
    ensures k <= |order|
    ensures k < |order| ==> order[k] in matches
    ensures forall j :: 0 <= j < k ==> order[j] !in matches
  {
    if order == [] then 0
    else if order[0] in matches then 0
    else 1 + FirstMatch(matches, order[1..])
  }

  function Dispatch(s: Stmt): Option<Case>
  {
    var k := FirstMatch(s.matches, DispatchOrder);
    if k < |DispatchOrder| then Some(DispatchOrder[k]) else None
  }

  /** A case handles a statement exactly when the statement matches it and no earlier case. */
  lemma {:induction false} DispatchFirstMatchWins(s: Stmt, c: Case)
    ensures Dispatch(s) == Some(c) <==>
      exists k :: 0 <= k < |DispatchOrder| && DispatchOrder[k] == c && c in s.matches
        && forall j :: 0 <= j < k ==> DispatchOrder[j] !in s.matches
  {
    var k := FirstMatch(s.matches, DispatchOrder);
    if Dispatch(s) == Some(c) {
      assert DispatchOrder[k] == c;
    }
    if exists k' :: 0 <= k' < |DispatchOrder| && DispatchOrder[k'] == c && c in s.matches
        && forall j :: 0 <= j < k' ==> DispatchOrder[j] !in s.matches {
      var k' :| 0 <= k' < |DispatchOrder| && DispatchOrder[k'] == c && c in s.matches
        && forall j :: 0 <= j < k' ==> DispatchOrder[j] !in s.matches;
      assert k == k';
    }
  }

  /** A statement that matches nothing is left to the framework. */
  lemma DispatchNone(s: Stmt)
    ensures Dispatch(s).None? <==> forall c :: c in DispatchOrder ==> c !in s.matches
  {
    var k := FirstMatch(s.matches, DispatchOrder);
    if k < |DispatchOrder| {
      assert DispatchOrder[k] in DispatchOrder;
    }
  }

  /** What each handler needs before it runs (the `cast<>` and `CHECK` of the C++ handlers). */
  predicate Ready(s: Stmt, lat: Lattice, env: Environment)
    reads lat, env
  {
    match Dispatch(s)
    case None => true
    case Some(c) =>
      match c
      case PointerVariableReference => IsPointerOrAbsent(env.GetValue(s.id))
      case PointerMemberExpr => IsPointerOrAbsent(env.GetValue(s.id))
      case NullPointerLiteral => IsPointerOrAbsent(env.GetValue(s.id))
      case AddrOf => env.GetValue(s.id).Some? && env.GetValue(s.id).value.PointerValue?
      case PointerDereference => HasNotNullProperty(s.sub, lat, env)
      case PointerCheckBinOp =>
        && env.GetValue(s.id).Some? && env.GetValue(s.id).value.BoolValue?
        && (s.opcode == EQ || s.opcode == NE)
        && HasNotNullProperty(s.lhs, lat, env) && HasNotNullProperty(s.rhs, lat, env)
      case ImplicitCastPointerToBool =>
        && IsPointerOrAbsent(env.GetValue(s.sub))
        && (env.GetValue(s.sub).Some? ==> env.GetValue(s.sub).value.id in lat.notNull)
  }

  /**
   * `PointerNullabilityAnalysis::transfer`: the handler of the first matching case
   * runs, with exactly that handler's effect; an unmatched statement changes nothing.
   */
  method Transfer(s: Stmt, lat: Lattice, env: Environment, oracle: Oracle)
    requires Valid(lat, env)
    requires Ready(s, lat, env)
    modifies lat, env
    ensures Valid(lat, env)
    ensures Dispatch(s).None? ==> unchanged(lat) && unchanged(env)
    ensures Dispatch(s) == Some(PointerVariableReference) ==> InitialisedProperty(s.id, lat, env)
    ensures Dispatch(s) == Some(PointerMemberExpr) ==> InitialisedProperty(s.id, lat, env)
    ensures Dispatch(s) == Some(NullPointerLiteral) ==> NullLiteralEffect(s.id, lat, env)
    ensures Dispatch(s) == Some(AddrOf) ==> AddrOfEffect(s.id, lat, env)
    ensures Dispatch(s) == Some(PointerDereference) ==> DereferenceEffect(s.sub, lat, env, oracle)
    ensures Dispatch(s) == Some(PointerCheckBinOp) ==> ComparisonEffect(s.id, s.opcode, s.lhs, s.rhs, lat, env)
    ensures Dispatch(s) == Some(ImplicitCastPointerToBool) ==> CastEffect(s.id, s.sub, lat, env)
  {
    match Dispatch(s)
    case None =>
    case Some(c) =>
      match c
      case PointerVariableReference => InitialisePointerNotNullProperty(s.id, lat, env);
      case PointerMemberExpr => InitialisePointerNotNullProperty(s.id, lat, env);
      case NullPointerLiteral => TransferNullPointerLiteral(s.id, lat, env);
      case AddrOf => TransferAddrOf(s.id, lat, env);
      case PointerDereference => TransferDereference(s.sub, lat, env, oracle);
      case PointerCheckBinOp => TransferNullCheckComparison(s.id, s.opcode, s.lhs, s.rhs, lat, env);
      case ImplicitCastPointerToBool => TransferNullCheckImplicitCastPtrToBool(s.id, s.sub, lat, env);
  }

  /** `PointerNullabilityAnalysis::merge`: never merges two values, whatever they are. */
  function Merge(val1: Value, env1: Environment, val2: Value, env2: Environment): (merged: bool)
    ensures !merged
  {
    false
  }
}
