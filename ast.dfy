/** The syntax tree of include/ast.c: types, expressions and statements, the
    `*_create` default initialisers, and structural type equality
    (`generic_datatype_compare`). A NULL pointer is `None`. */
module Ast {
  import opened Utils
  import opened Tokens

  /** A primitive type. */
  datatype DataType = Bool | Int | Void

  /** `GenericDT`: a primitive (Simple) or a function type (Complex). */
  datatype GenericType = Simple(simple: DataType) | Complex(fn: FunctionType)

  /** `FunctionType`: parameter list and return type (NULL until set). */
  datatype FunctionType = FunctionType(params: seq<FnParam>, returnType: Option<GenericType>)

  /** `FnParam`: a parameter name (NULL inside a written type) and its type. */
  datatype FnParam = FnParam(name: Option<Token>, dtype: Option<GenericType>)

  /** `OpExpression`: a literal, identifier, `!` or binary node. The parser
      gives literals and operators a type and leaves identifiers untyped. */
  datatype OpExpression = OpExpression(
    dtype: Option<GenericType>, token: Token,
    left: Option<Expression>, right: Option<Expression>, scope: int)

  /** `Call`: a call of `name` with `args`; `dtype` and `scope` are written
      by the analyzer. */
  datatype Call = Call(dtype: Option<GenericType>, name: Token, args: seq<Expression>, scope: int)

  datatype Expression = ExpExp(exp: OpExpression) | FnCallExp(call: Call)

  /** `Assignment`: `variable op exp`; `dtype` is the declared (or, after
      analysis, resolved) type and `scope` the resolved scope depth. */
  datatype Assignment = Assignment(
    variable: Token, dtype: Option<GenericType>, newVar: bool,
    op: Token, exp: Option<Expression>, scope: int)

  datatype Oneliner = AssignmentOL(assignment: Assignment) | CallOL(call: Call)

  /** `if` and `while` both become a `Conditional`. */
  datatype Conditional = Conditional(token: Token, condition: Expression, thenBlock: seq<Stmt>, elseBlock: seq<Stmt>)

  datatype ForLoop = ForLoop(token: Token, init: Oneliner, condition: Expression, after: Oneliner, body: seq<Stmt>)

  datatype FnDefinition = FnDefinition(name: Token, dtype: FunctionType, body: seq<Stmt>)

  datatype Stmt =
    | OnelinerStmt(oneliner: Oneliner)
    | ConditionalStmt(conditional: Conditional)
    | ForStmt(forLoop: ForLoop)
    | FnStmt(fnDef: FnDefinition)
    | BreakStmt(token: Token)
    | ContinueStmt(token: Token)
    | OpenScopeStmt(token: Token)
    /** `closeToken` is the token after the block, or None for the address one
        past the token array when the tokens ran out inside the block. */
    | CloseScopeStmt(closeToken: Option<Token>)
    | ReturnStmt(token: Token, exp: Option<Expression>)

  // ---------------------------------------------------------------------
  // Default initialisers. Fields that the parser fills in right after
  // allocation are parameters; the others take the defaults of ast.c.

  /** `function_type_create`: no parameters and a NULL return type. */
  function FunctionTypeCreate(): (r: FunctionType)
    ensures r.params == [] && r.returnType.None?
  {
    FunctionType([], None)
  }

  /** `op_expression_create`: NULL type and children. Its NULL token is
      always overwritten by the caller straight away, so the token is a
      parameter here. The scope field is never written by the C code; it
      starts at -1 here. */
  function OpExpressionCreate(token: Token): (r: OpExpression)
    ensures r.token == token && r.dtype.None? && r.left.None? && r.right.None?
    ensures r.scope == -1
  {
    OpExpression(None, token, None, None, -1)
  }

  /** `call_create` for a call of `name`: no arguments, NULL type, scope -1. */
  function CallCreate(name: Token): (r: Call)
    ensures r.name == name && r.args == [] && r.dtype.None? && r.scope == -1
  {
    Call(None, name, [], -1)
  }

  /** `assignment_create` for `variable op ...`: not a declaration, no
      expression, NULL type, scope -1. */
  function AssignmentCreate(variable: Token, op: Token): (r: Assignment)
    ensures r.variable == variable && r.op == op
    ensures !r.newVar && r.exp.None? && r.dtype.None? && r.scope == -1
  {
    Assignment(variable, None, false, op, None, -1)
  }

  /** `fn_param_create`: NULL name and type. */
  function FnParamCreate(): (r: FnParam)
    ensures r.name.None? && r.dtype.None?
  {
    FnParam(None, None)
  }

  /** `fn_definition_create` for `name`: an empty body. */
  function FnDefinitionCreate(name: Token, dtype: FunctionType): (r: FnDefinition)
    ensures r.name == name && r.dtype == dtype && r.body == []
  {
    FnDefinition(name, dtype, [])
  }

  /** `for_loop_create`: an empty body. */
  function ForLoopCreate(token: Token, init: Oneliner, condition: Expression, after: Oneliner): (r: ForLoop)
    ensures r.body == [] && r.init == init && r.condition == condition && r.after == after
  {
    ForLoop(token, init, condition, after, [])
  }

  /** `conditional_create`: empty then and else blocks. */
  function ConditionalCreate(token: Token, condition: Expression): (r: Conditional)
    ensures r.thenBlock == [] && r.elseBlock == [] && r.condition == condition
  {
    Conditional(token, condition, [], [])
  }

  /** `return_cmd_create`: no expression. */
  function ReturnCreate(token: Token): (r: Stmt)
    ensures r.ReturnStmt? && r.exp.None?
  {
    ReturnStmt(token, None)
  }

  // ---------------------------------------------------------------------
  // Brace statements

  /** The number of `{` statements in `stmts`. */
  function Opens(stmts: seq<Stmt>): nat
  {
    if stmts == [] then 0 else (if stmts[0].OpenScopeStmt? then 1 else 0) + Opens(stmts[1..])
  }

  /** The number of `}` statements in `stmts`. */
  function Closes(stmts: seq<Stmt>): nat
  {
    if stmts == [] then 0 else (if stmts[0].CloseScopeStmt? then 1 else 0) + Closes(stmts[1..])
  }

  /** Appending one statement adds its own brace to the counts. */
  lemma {:induction false} CountsAppend(stmts: seq<Stmt>, s: Stmt)
    ensures Opens(stmts + [s]) == Opens(stmts) + (if s.OpenScopeStmt? then 1 else 0)
    ensures Closes(stmts + [s]) == Closes(stmts) + (if s.CloseScopeStmt? then 1 else 0)
  {
    if stmts != [] {
      assert (stmts + [s])[1..] == stmts[1..] + [s];
      CountsAppend(stmts[1..], s);
    }
  }

  // ---------------------------------------------------------------------
  // generic_datatype_compare

  /** `generic_datatype_compare`: NULL matches anything; otherwise the tags
      must agree, Simple types must name the same primitive, and function
      types must have matching return types, the same number of parameters
      and pairwise matching parameter types. */
  function TypeCompare(a: Option<GenericType>, b: Option<GenericType>): bool
  {
    if a.None? || b.None? then true
    else match (a.value, b.value)
      case (Simple(x), Simple(y)) => x == y
      case (Complex(f), Complex(g)) =>
        TypeCompare(f.returnType, g.returnType) &&
        |f.params| == |g.params| &&
        forall i :: 0 <= i < |f.params| ==> TypeCompare(f.params[i].dtype, g.params[i].dtype)
      case _ => false
  }

  /** A NULL argument compares equal to anything. */
  lemma CompareNullMatches(a: Option<GenericType>, b: Option<GenericType>)
    requires a.None? || b.None?
    ensures TypeCompare(a, b)
  {
  }

  /** Simple versus Complex is always unequal. */
  lemma CompareTagsDiffer(a: GenericType, b: GenericType)
    requires a.Simple? != b.Simple?
    ensures !TypeCompare(Some(a), Some(b))
  {
  }

  /** Two Simple types are equal exactly when they name one primitive. */
  lemma CompareSimple(x: DataType, y: DataType)
    ensures TypeCompare(Some(Simple(x)), Some(Simple(y))) <==> x == y
  {
  }

  /** Two function types are equal exactly when return types compare equal,
      parameter counts agree and parameters compare equal pairwise. */
  lemma CompareComplex(f: FunctionType, g: FunctionType)
    ensures TypeCompare(Some(Complex(f)), Some(Complex(g))) <==>
      (TypeCompare(f.returnType, g.returnType) && |f.params| == |g.params| &&
       forall i :: 0 <= i < |f.params| ==> TypeCompare(f.params[i].dtype, g.params[i].dtype))
  {
  }

  /** Every type compares equal to itself. */
  lemma {:induction false} CompareReflexive(a: Option<GenericType>)
    ensures TypeCompare(a, a)
  {
    if a.Some? && a.value.Complex? {
      var f := a.value.fn;
      CompareReflexive(f.returnType);
      forall i | 0 <= i < |f.params|
        ensures TypeCompare(f.params[i].dtype, f.params[i].dtype)
      {
        CompareReflexive(f.params[i].dtype);
      }
    }
  }

  /** The comparison does not depend on argument order. */
  lemma {:induction false} CompareSymmetric(a: Option<GenericType>, b: Option<GenericType>)
    ensures TypeCompare(a, b) == TypeCompare(b, a)
  {
    if a.Some? && b.Some? && a.value.Complex? && b.value.Complex? {
      var f, g := a.value.fn, b.value.fn;
      CompareSymmetric(f.returnType, g.returnType);
      if |f.params| == |g.params| {
        forall i | 0 <= i < |f.params|
          ensures TypeCompare(f.params[i].dtype, g.params[i].dtype) == TypeCompare(g.params[i].dtype, f.params[i].dtype)
        {
          CompareSymmetric(f.params[i].dtype, g.params[i].dtype);
        }
      }
    }
  }

  /** Because NULL is a wildcard the comparison is not transitive: `int`
      matches NULL and NULL matches `bool`, yet `int` does not match `bool`. */
  lemma CompareNotTransitive()
    ensures exists a, b, c :: TypeCompare(a, b) && TypeCompare(b, c) && !TypeCompare(a, c)
  {
    var a, b, c := Some(Simple(Int)), None, Some(Simple(Bool));
    assert TypeCompare(a, b) && TypeCompare(b, c) && !TypeCompare(a, c);
  }

  /** A type with no NULL anywhere in it. */
  ghost predicate NullFree(a: GenericType)
  {
    match a
    case Simple(_) => true
    case Complex(f) =>
      f.returnType.Some? && NullFree(f.returnType.value) &&
      forall i :: 0 <= i < |f.params| ==> f.params[i].dtype.Some? && NullFree(f.params[i].dtype.value)
  }

  /** A type with every parameter name dropped: what remains after erasure
      is the part of a type the comparison looks at. */
  function Erase(a: GenericType): GenericType
  {
    match a
    case Simple(d) => Simple(d)
    case Complex(f) =>
      Complex(FunctionType(
        seq(|f.params|, i requires 0 <= i < |f.params| => FnParam(None, EraseOpt(f.params[i].dtype))),
        EraseOpt(f.returnType)))
  }

  function EraseOpt(a: Option<GenericType>): Option<GenericType>
  {
    if a.None? then None else Some(Erase(a.value))
  }

  /** On NULL-free types the comparison is structural equality up to the
      names of parameters. */
  lemma {:induction false} CompareIsEquality(a: GenericType, b: GenericType)
    requires NullFree(a) && NullFree(b)
    ensures TypeCompare(Some(a), Some(b)) <==> Erase(a) == Erase(b)
  {
    match (a, b)
    case (Simple(_), Simple(_)) =>
    case (Complex(f), Complex(g)) =>
      CompareIsEquality(f.returnType.value, g.returnType.value);
      var ef, eg := Erase(a).fn, Erase(b).fn;
      assert |ef.params| == |f.params| && |eg.params| == |g.params|;
      if |f.params| == |g.params| {
        forall i | 0 <= i < |f.params|
          ensures TypeCompare(f.params[i].dtype, g.params[i].dtype) <==> ef.params[i] == eg.params[i]
        {
          CompareIsEquality(f.params[i].dtype.value, g.params[i].dtype.value);
          assert ef.params[i] == FnParam(None, EraseOpt(f.params[i].dtype));
          assert eg.params[i] == FnParam(None, EraseOpt(g.params[i].dtype));
        }
        if TypeCompare(Some(a), Some(b)) {
          assert ef.params == eg.params;
        }
      } else {
        assert |ef.params| != |eg.params|;
      }
    case (Simple(_), Complex(_)) =>
    case (Complex(_), Simple(_)) =>
  }
}
