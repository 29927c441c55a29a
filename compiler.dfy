/** The bytecode emitter of include/bytecode_compiler.c. `CompileExp`,
    `StmtStep` and `CompileProgram` say what the emitter does to its output
    buffers and `has_error` flag; the `Emitter` class is the imperative
    code, proved to do exactly that; `ExpCode` is an independent
    bottom-up definition of the code of one expression. */
module Compiler {
  import opened Utils
  import opened Tokens
  import opened Ast
  import opened Bytecode

  /** The three output arrays and the error flag. */
  datatype Code = Code(commands: seq<OpCode>, args: seq<Constant>, refScopes: seq<int>, hasError: bool)

  /** What a piece of the emitter does: a new state, or undefined
      behaviour (a NULL dereference, a slice outside the source, or an
      `atoi` overflow). */
  datatype Outcome = Done(code: Code) | Undefined

  /** The opcode of a binary operator token. */
  function BinaryOpcode(t: TokenType): (r: Option<OpCode>)
    ensures r.Some? ==> BinaryOpcodeOf(r.value)
  {
    match t
    case Plus => Some(IntAddCode) case Minus => Some(IntSubtractCode)
    case Star => Some(IntMultiplyCode) case Slash => Some(IntDivideCode)
    case Mod => Some(IntModCode) case EqEq => Some(IntEqCode)
    case NotEq => Some(IntNotEqCode) case Lt => Some(IntLtCode)
    case Gt => Some(IntGtCode) case LtE => Some(IntLtECode)
    case GtE => Some(IntGtECode) case And => Some(BoolAndCode)
    case Or => Some(BoolOrCode)
    case _ => None
  }

  /** The text of `t` as `substring` returns it, or None when the token
      lies outside the source (undefined in C). */
  function Lexeme(src: string, t: Token): Option<Option<string>>
  {
    if t.start <= t.end <= |src| then Some(Slice(src, t.start, t.end)) else None
  }

  function Emit(c: Code, op: OpCode): Code
  {
    c.(commands := c.commands + [op])
  }

  function EmitArg(c: Code, op: OpCode, k: Constant): Code
  {
    c.(commands := c.commands + [op], args := c.args + [k])
  }

  // ---------------------------------------------------------------------
  // compile_expression

  /** `compile_expression` of `e` into the buffers of `c`. A call, or an
      expression whose type is a function type, sets the error flag and
      emits nothing; after each operand the flag is tested and, when set,
      nothing more is emitted. */
  function CompileExp(src: string, e: Option<Expression>, c: Code): Outcome
    decreases e
  {
    if e.None? then Undefined
    else match e.value
      case FnCallExp(_) => Done(c.(hasError := true))
      case ExpExp(op) =>
        if op.dtype.None? then Undefined
        else if !op.dtype.value.Simple? then Done(c.(hasError := true))
        else
          var tt := op.token.ttype;
          if tt.Number? then
            var lexeme := Lexeme(src, op.token);
            if lexeme.None? || lexeme.value.None? then Undefined
            else
              var v := Atoi(lexeme.value.value);
              if v.None? then Undefined else Done(EmitArg(c, PushCode, IntC(v.value)))
          else if tt.True? || tt.False? then
            Done(EmitArg(c, PushCode, BoolC(tt.True?)))
          else if tt.Not? then
            match CompileExp(src, op.left, c)
            case Undefined => Undefined
            case Done(c1) => if c1.hasError then Done(c1) else Done(Emit(c1, BoolNotCode))
          else if tt.Identifier? then
            var lexeme := Lexeme(src, op.token);
            if lexeme.None? then Undefined
            else
              var c1 := EmitArg(c, LoadCode, NameC(lexeme.value));
              Done(c1.(refScopes := c1.refScopes + [op.scope]))
          else if BinaryOpcode(tt).Some? then
            match CompileExp(src, op.left, c)
            case Undefined => Undefined
            case Done(c1) =>
              if c1.hasError then Done(c1)
              else match CompileExp(src, op.right, c1)
                case Undefined => Undefined
                case Done(c2) => if c2.hasError then Done(c2) else Done(Emit(c2, BinaryOpcode(tt).value))
          else Done(c.(hasError := true))
  }

  // ---------------------------------------------------------------------
  // An independent definition: the code of an expression on its own

  /** Pieces of the three output arrays. */
  datatype Fragment = Fragment(commands: seq<OpCode>, args: seq<Constant>, refScopes: seq<int>)

  /** The code of an expression, built bottom-up: the post-order code of a
      well-formed expression, or the part emitted before it was rejected. */
  datatype ExpOut = Emits(f: Fragment) | Rejects(f: Fragment) | Undef

  function Join(a: Fragment, b: Fragment): Fragment
  {
    Fragment(a.commands + b.commands, a.args + b.args, a.refScopes + b.refScopes)
  }

  const NoCode := Fragment([], [], [])

  /** The code of `e` alone: a literal is one `Push` with its constant, an
      identifier one `Load` with its name and scope, `!e` the code of `e`
      then `BoolNot`, and a binary node the code of its left operand, then
      of its right one, then its opcode. */
  function ExpCode(src: string, e: Option<Expression>): ExpOut
    decreases e
  {
    if e.None? then Undef
    else match e.value
      case FnCallExp(_) => Rejects(NoCode)
      case ExpExp(op) =>
        if op.dtype.None? then Undef
        else if !op.dtype.value.Simple? then Rejects(NoCode)
        else
          var tt := op.token.ttype;
          if tt.Number? then
            var lexeme := Lexeme(src, op.token);
            if lexeme.None? || lexeme.value.None? || Atoi(lexeme.value.value).None? then Undef
            else Emits(Fragment([PushCode], [IntC(Atoi(lexeme.value.value).value)], []))
          else if tt.True? || tt.False? then Emits(Fragment([PushCode], [BoolC(tt.True?)], []))
          else if tt.Not? then
            match ExpCode(src, op.left)
            case Emits(f) => Emits(Join(f, Fragment([BoolNotCode], [], [])))
            case other => other
          else if tt.Identifier? then
            var lexeme := Lexeme(src, op.token);
            if lexeme.None? then Undef
            else Emits(Fragment([LoadCode], [NameC(lexeme.value)], [op.scope]))
          else if BinaryOpcode(tt).Some? then
            match ExpCode(src, op.left)
            case Emits(l) =>
              (match ExpCode(src, op.right)
               case Emits(r) => Emits(Join(Join(l, r), Fragment([BinaryOpcode(tt).value], [], [])))
               case Rejects(r) => Rejects(Join(l, r))
               case Undef => Undef)
            case other => other
          else Rejects(NoCode)
  }

  /** `c` with a fragment appended. */
  function Append(c: Code, f: Fragment): Code
  {
    c.(commands := c.commands + f.commands, args := c.args + f.args, refScopes := c.refScopes + f.refScopes)
  }

  /** What appending the code of an expression to a clean state gives. */
  function AppendOut(c: Code, out: ExpOut): Outcome
  {
    match out
    case Emits(f) => Done(Append(c, f))
    case Rejects(f) => Done(Append(c, f).(hasError := true))
    case Undef => Undefined
  }

  lemma AppendJoin(c: Code, a: Fragment, b: Fragment)
    ensures Append(Append(c, a), b) == Append(c, Join(a, b))
  {
    assert (c.commands + a.commands) + b.commands == c.commands + (a.commands + b.commands);
    assert (c.args + a.args) + b.args == c.args + (a.args + b.args);
    assert (c.refScopes + a.refScopes) + b.refScopes == c.refScopes + (a.refScopes + b.refScopes);
  }

  lemma AppendNothing(c: Code)
    ensures Append(c, NoCode) == c
  {
  }

  /** Starting from a state without an error, `compile_expression` appends
      exactly the code of the expression and sets the flag exactly when the
      expression is rejected. */
  lemma {:induction false} CompileExpAppends(src: string, e: Option<Expression>, c: Code)
    requires !c.hasError
    ensures CompileExp(src, e, c) == AppendOut(c, ExpCode(src, e))
    decreases e
  {
    if e.Some? && e.value.ExpExp? {
      var op := e.value.exp;
      if op.dtype.Some? && op.dtype.value.Simple? {
        var tt := op.token.ttype;
        if tt.Not? {
          CompileExpAppends(src, op.left, c);
          if ExpCode(src, op.left).Emits? {
            AppendJoin(c, ExpCode(src, op.left).f, Fragment([BoolNotCode], [], []));
          }
        } else if !tt.Number? && !tt.True? && !tt.False? && !tt.Identifier? && BinaryOpcode(tt).Some? {
          CompileExpAppends(src, op.left, c);
          var lo := ExpCode(src, op.left);
          if lo.Emits? {
            var c1 := Append(c, lo.f);
            CompileExpAppends(src, op.right, c1);
            var ro := ExpCode(src, op.right);
            if ro.Emits? {
              AppendJoin(c, lo.f, ro.f);
              AppendJoin(c, Join(lo.f, ro.f), Fragment([BinaryOpcode(tt).value], [], []));
            } else if ro.Rejects? {
              AppendJoin(c, lo.f, ro.f);
            }
          }
        } else if !tt.Number? && !tt.True? && !tt.False? && !tt.Identifier? {
          AppendNothing(c);
        }
      } else if op.dtype.Some? {
        AppendNothing(c);
      }
    } else if e.Some? {
      AppendNothing(c);
    }
  }

  // ---------------------------------------------------------------------
  // What the code of an expression looks like

  /** The net number of values an opcode leaves on the virtual machine's
      stack (jumps and scope opcodes count as 0). */
  function StackEffect(op: OpCode): int
  {
    match op
    case PushCode => 1
    case LoadCode => 1
    case StoreCode => -1
    case BoolNotCode => 0
    case GotoIfCode => -1
    case PrintlnIntCode => -1
    case PrintlnBoolCode => -1
    case PrintlnStrCode => -1
    case _ => if BinaryOpcodeOf(op) then -1 else 0
  }

  function StackDelta(ops: seq<OpCode>): int
  {
    if ops == [] then 0 else StackDelta(ops[..|ops| - 1]) + StackEffect(ops[|ops| - 1])
  }

  /** The number of `op` in `ops`. */
  function CountOf(ops: seq<OpCode>, op: OpCode): nat
  {
    if ops == [] then 0 else CountOf(ops[..|ops| - 1], op) + (if ops[|ops| - 1] == op then 1 else 0)
  }

  lemma {:induction false} StackDeltaConcat(a: seq<OpCode>, b: seq<OpCode>)
    ensures StackDelta(a + b) == StackDelta(a) + StackDelta(b)
    decreases |b|
  {
    if b == [] {
      assert a + b == a;
    } else {
      assert (a + b)[..|a + b| - 1] == a + b[..|b| - 1];
      StackDeltaConcat(a, b[..|b| - 1]);
    }
  }

  lemma {:induction false} CountOfConcat(a: seq<OpCode>, b: seq<OpCode>, op: OpCode)
    ensures CountOf(a + b, op) == CountOf(a, op) + CountOf(b, op)
    decreases |b|
  {
    if b == [] {
      assert a + b == a;
    } else {
      assert (a + b)[..|a + b| - 1] == a + b[..|b| - 1];
      CountOfConcat(a, b[..|b| - 1], op);
    }
  }

  lemma CountOfOne(x: OpCode, op: OpCode)
    ensures CountOf([x], op) == if x == op then 1 else 0
  {
    assert [x][..0] == [];
  }

  /** The opcodes that only push, load or combine values. */
  predicate ValueOpcode(op: OpCode)
  {
    op.PushCode? || op.LoadCode? || op.BoolNotCode? || BinaryOpcodeOf(op)
  }

  /** Opcodes that only push, load and combine values (no stores, jumps,
      scopes or prints). */
  predicate ValueOps(ops: seq<OpCode>)
    decreases |ops|
  {
    ops == [] || (ValueOps(ops[..|ops| - 1]) && ValueOpcode(ops[|ops| - 1]))
  }

  lemma {:induction false} ValueOpsConcat(a: seq<OpCode>, b: seq<OpCode>)
    requires ValueOps(a) && ValueOps(b)
    ensures ValueOps(a + b)
    decreases |b|
  {
    if b == [] {
      assert a + b == a;
    } else {
      assert (a + b)[..|a + b| - 1] == a + b[..|b| - 1];
      ValueOpsConcat(a, b[..|b| - 1]);
    }
  }

  /** Each opcode of value-only code is a value opcode. */
  lemma {:induction false} ValueOpsAt(ops: seq<OpCode>, i: int)
    requires ValueOps(ops) && 0 <= i < |ops|
    ensures ValueOpcode(ops[i])
    decreases |ops|
  {
    if i < |ops| - 1 {
      ValueOpsAt(ops[..|ops| - 1], i);
    }
  }

  /** A fragment of value-only code holding one constant per `Push` and
      `Load` and one scope per `Load`. */
  ghost predicate ExpShaped(f: Fragment)
  {
    ValueOps(f.commands) &&
    |f.args| == CountOf(f.commands, PushCode) + CountOf(f.commands, LoadCode) &&
    |f.refScopes| == CountOf(f.commands, LoadCode)
  }

  lemma JoinShaped(a: Fragment, b: Fragment)
    requires ExpShaped(a) && ExpShaped(b)
    ensures ExpShaped(Join(a, b))
  {
    CountOfConcat(a.commands, b.commands, PushCode);
    CountOfConcat(a.commands, b.commands, LoadCode);
    ValueOpsConcat(a.commands, b.commands);
  }

  /** A fragment of value-only code that leaves `n` values. */
  ghost predicate ValueCode(f: Fragment, n: int)
  {
    ExpShaped(f) && StackDelta(f.commands) == n
  }

  /** A one-opcode fragment. */
  lemma SingleShape(f: Fragment)
    requires |f.commands| == 1
    requires ValueOpcode(f.commands[0])
    requires |f.args| == (if f.commands[0].PushCode? || f.commands[0].LoadCode? then 1 else 0)
    requires |f.refScopes| == (if f.commands[0].LoadCode? then 1 else 0)
    ensures ValueCode(f, StackEffect(f.commands[0]))
  {
    CountOfOne(f.commands[0], PushCode);
    CountOfOne(f.commands[0], LoadCode);
    assert f.commands == [f.commands[0]];
    assert f.commands[..0] == [];
    assert StackDelta(f.commands) == StackDelta([]) + StackEffect(f.commands[0]);
  }

  /** Joining value-only fragments adds up what they leave. */
  lemma JoinValueCode(a: Fragment, b: Fragment, n: int, m: int)
    requires ValueCode(a, n) && ValueCode(b, m)
    ensures ValueCode(Join(a, b), n + m)
  {
    JoinShaped(a, b);
    StackDeltaConcat(a.commands, b.commands);
  }

  /** How the code of an emitted expression is made of its operands' code. */
  lemma ExpCodeParts(src: string, e: Option<Expression>)
    requires ExpCode(src, e).Emits?
    ensures e.Some? && e.value.ExpExp?
    ensures var op := e.value.exp; var tt := op.token.ttype; var f := ExpCode(src, e).f;
      if tt.Number? || tt.True? || tt.False? || tt.Identifier? then
        |f.commands| == 1 && (f.commands[0].PushCode? || f.commands[0].LoadCode?) &&
        |f.args| == 1 && |f.refScopes| == (if f.commands[0].LoadCode? then 1 else 0)
      else if tt.Not? then
        ExpCode(src, op.left).Emits? && f == Join(ExpCode(src, op.left).f, Fragment([BoolNotCode], [], []))
      else
        BinaryOpcode(tt).Some? && ExpCode(src, op.left).Emits? && ExpCode(src, op.right).Emits? &&
        f == Join(Join(ExpCode(src, op.left).f, ExpCode(src, op.right).f), Fragment([BinaryOpcode(tt).value], [], []))
  {
  }

  /** `!` after one value leaves one value. */
  lemma NotShape(l: Fragment)
    requires ValueCode(l, 1)
    ensures ValueCode(Join(l, Fragment([BoolNotCode], [], [])), 1)
  {
    SingleShape(Fragment([BoolNotCode], [], []));
    JoinValueCode(l, Fragment([BoolNotCode], [], []), 1, 0);
  }

  /** A binary opcode after two values leaves one value. */
  lemma BinaryShape(l: Fragment, r: Fragment, code: OpCode)
    requires ValueCode(l, 1) && ValueCode(r, 1) && BinaryOpcodeOf(code)
    ensures ValueCode(Join(Join(l, r), Fragment([code], [], [])), 1)
  {
    var n := Fragment([code], [], []);
    SingleShape(n);
    JoinValueCode(l, r, 1, 1);
    JoinValueCode(Join(l, r), n, 2, -1);
  }

  /** The code of a well-formed expression leaves exactly one value on the
      stack, contains only value opcodes, and has one constant for every
      `Push` and `Load` and one scope for every `Load`. */
  lemma {:induction false} ExpCodeShape(src: string, e: Option<Expression>)
    requires ExpCode(src, e).Emits?
    ensures ValueCode(ExpCode(src, e).f, 1)
    decreases e
  {
    ExpCodeParts(src, e);
    var op := e.value.exp;
    var tt := op.token.ttype;
    if tt.Number? || tt.True? || tt.False? || tt.Identifier? {
      SingleShape(ExpCode(src, e).f);
    } else if tt.Not? {
      ExpCodeShape(src, op.left);
      NotShape(ExpCode(src, op.left).f);
    } else {
      ExpCodeShape(src, op.left);
      ExpCodeShape(src, op.right);
      BinaryShape(ExpCode(src, op.left).f, ExpCode(src, op.right).f, BinaryOpcode(tt).value);
    }
  }

  /** An expression that is a call, or has a function type, is rejected
      with nothing emitted. */
  lemma RejectedExpression(src: string, e: Expression, c: Code)
    requires e.FnCallExp? || (e.exp.dtype.Some? && e.exp.dtype.value.Complex?)
    ensures CompileExp(src, Some(e), c) == Done(c.(hasError := true))
  {
  }

  /** Each binary operator token maps to its opcode. */
  lemma BinaryOpcodes()
    ensures BinaryOpcode(Plus) == Some(IntAddCode) && BinaryOpcode(Mod) == Some(IntModCode)
    ensures BinaryOpcode(EqEq) == Some(IntEqCode) && BinaryOpcode(NotEq) == Some(IntNotEqCode)
  {
  }

  // ---------------------------------------------------------------------
  // compile_to_bytecode

  /** The operators `compile_to_bytecode` lowers. */
  predicate IsLoweredOp(t: TokenType)
  {
    t.ColEq? || t.Eq? || IsCompound(t)
  }

  /** The assignment operators lowered to load, compute and store. */
  predicate IsCompound(t: TokenType)
  {
    t.PlusEq? || t.MinusEq? || t.StarEq? || t.SlashEq? || t.ModEq? || t.Inc? || t.Dec?
  }

  /** The arithmetic opcode of a compound assignment; every operator not
      named falls into `IntModCode`. */
  function CompoundOpcode(t: TokenType): OpCode
  {
    match t
    case Inc => IntAddCode case PlusEq => IntAddCode
    case Dec => IntSubtractCode case MinusEq => IntSubtractCode
    case StarEq => IntMultiplyCode case SlashEq => IntDivideCode
    case _ => IntModCode
  }

  /** The outcome of one pass of the statement loop: go on, return early,
      or undefined behaviour. */
  datatype StepOut = Proceed(code: Code) | Halt(code: Code) | Fault

  /** The name constant and scope appended after every assignment. */
  function Trailer(c: Code, name: Option<string>, scope: int): Code
  {
    c.(args := c.args + [NameC(name)], refScopes := c.refScopes + [scope])
  }

  /** The loop body for an assignment: its expression first, stopping if
      that set the error flag, then the operator switch. */
  function AssignStep(src: string, ass: Assignment, c: Code): StepOut
  {
    match CompileExp(src, ass.exp, c)
    case Undefined => Fault
    case Done(c1) => if c1.hasError then Halt(c1) else StoreStep(src, ass, c1)
  }

  /** The operator switch: `Store` for `:=` and `=`; `Load`, the right
      operand, the arithmetic opcode and `Store` for a compound operator;
      then the target's name and scope. Any other operator returns early. */
  function StoreStep(src: string, ass: Assignment, c: Code): StepOut
  {
    var t := ass.op.ttype;
    var name := Lexeme(src, ass.variable);
    if !IsLoweredOp(t) then Halt(c)
    else if name.None? then Fault
    else if t.ColEq? || t.Eq? then Proceed(Trailer(Emit(c, StoreCode), name.value, ass.scope))
    else match CompoundValue(src, ass, EmitArg(c, LoadCode, NameC(name.value)))
      case Undefined => Fault
      case Done(c1) => Proceed(CompoundStore(c1, t, name.value, ass.scope))
  }

  /** The tail of a compound assignment: the arithmetic opcode, `Store`,
      and the target's name and scope. */
  function CompoundStore(c: Code, t: TokenType, name: Option<string>, scope: int): Code
  {
    Trailer(Emit(Emit(c, CompoundOpcode(t)), StoreCode), name, scope)
  }

  /** The right operand of a compound assignment: `Push 1` for `++` and
      `--`, the expression compiled a second time (its flag unchecked)
      otherwise. */
  function CompoundValue(src: string, ass: Assignment, c: Code): Outcome
  {
    if ass.op.ttype.Inc? || ass.op.ttype.Dec? then Done(EmitArg(c, PushCode, IntC(1)))
    else CompileExp(src, ass.exp, c)
  }

  /** The loop body for one statement: scope braces become scope opcodes,
      assignments are lowered, and everything else returns early. */
  function StmtStep(src: string, s: Stmt, c: Code): StepOut
  {
    match s
    case OnelinerStmt(AssignmentOL(ass)) => AssignStep(src, ass, c)
    case OpenScopeStmt(_) => Proceed(Emit(c, CreateScopeCode))
    case CloseScopeStmt(_) => Proceed(Emit(c, DestroyScopeCode))
    case _ => Halt(c)
  }

  /** The statement loop from statement `i` on, then the closing
      `DestroyScope` unless the loop returned early. */
  function CompileFrom(src: string, stmts: seq<Stmt>, i: nat, c: Code): Outcome
    requires i <= |stmts|
    decreases |stmts| - i
  {
    if i == |stmts| then Done(Emit(c, DestroyScopeCode))
    else match StmtStep(src, stmts[i], c)
      case Fault => Undefined
      case Halt(c1) => Done(c1)
      case Proceed(c1) => CompileFrom(src, stmts, i + 1, c1)
  }

  /** `compile_to_bytecode`: nothing for an empty program, otherwise a
      `CreateScope` and the statement loop. */
  function CompileProgram(src: string, stmts: seq<Stmt>, c: Code): Outcome
  {
    if |stmts| == 0 then Done(c) else CompileFrom(src, stmts, 0, Emit(c, CreateScopeCode))
  }

  // ---------------------------------------------------------------------
  // Properties of the statement lowering

  /** The code of an assignment whose expression has code `f`. */
  function AssignCode(f: Fragment, t: TokenType, name: Option<string>, scope: int): Fragment
  {
    var n := NameC(name);
    if t.ColEq? || t.Eq? then
      Fragment(f.commands + [StoreCode], f.args + [n], f.refScopes + [scope])
    else if t.Inc? || t.Dec? then
      Fragment(f.commands + [LoadCode, PushCode, CompoundOpcode(t), StoreCode],
               f.args + [n, IntC(1), n], f.refScopes + [scope])
    else
      Fragment(f.commands + [LoadCode] + f.commands + [CompoundOpcode(t), StoreCode],
               f.args + [n] + f.args + [n], f.refScopes + f.refScopes + [scope])
  }

  /** The compound case of the lowering, once the right operand is known
      to append `g`. */
  lemma CompoundLowering(c: Code, f: Fragment, g: Fragment, t: TokenType, name: Option<string>, scope: int)
    ensures CompoundStore(Append(EmitArg(Append(c, f), LoadCode, NameC(name)), g), t, name, scope) ==
      Append(c, Fragment(f.commands + [LoadCode] + g.commands + [CompoundOpcode(t), StoreCode],
                         f.args + [NameC(name)] + g.args + [NameC(name)],
                         f.refScopes + g.refScopes + [scope]))
  {
    var n := NameC(name);
    assert c.commands + f.commands + [LoadCode] + g.commands + [CompoundOpcode(t)] + [StoreCode] ==
      c.commands + (f.commands + [LoadCode] + g.commands + [CompoundOpcode(t), StoreCode]);
    assert c.args + f.args + [n] + g.args + [n] == c.args + (f.args + [n] + g.args + [n]);
    assert c.refScopes + f.refScopes + g.refScopes + [scope] == c.refScopes + (f.refScopes + g.refScopes + [scope]);
  }

  /** Assignment lowering: from a clean state, `:=` and `=` append the
      expression code and `Store`; a compound operator appends the
      expression code, `Load`, `Push 1` (for `++`/`--`) or the expression
      code again, the arithmetic opcode and `Store`; both append the
      target's name constant and scope afterwards. */
  lemma AssignLowering(src: string, ass: Assignment, c: Code)
    requires !c.hasError && ExpCode(src, ass.exp).Emits? && Lexeme(src, ass.variable).Some?
    requires IsLoweredOp(ass.op.ttype)
    ensures AssignStep(src, ass, c) ==
      Proceed(Append(c, AssignCode(ExpCode(src, ass.exp).f, ass.op.ttype, Lexeme(src, ass.variable).value, ass.scope)))
  {
    var f := ExpCode(src, ass.exp).f;
    var t := ass.op.ttype;
    var name := Lexeme(src, ass.variable).value;
    CompileExpAppends(src, ass.exp, c);
    var c1 := Append(c, f);
    assert AssignStep(src, ass, c) == StoreStep(src, ass, c1);
    var c2 := EmitArg(c1, LoadCode, NameC(name));
    if t.ColEq? || t.Eq? {
      assert c1.commands + [StoreCode] == c.commands + (f.commands + [StoreCode]);
      assert c1.args + [NameC(name)] == c.args + (f.args + [NameC(name)]);
    } else if t.Inc? || t.Dec? {
      var g := Fragment([PushCode], [IntC(1)], []);
      assert CompoundValue(src, ass, c2) == Done(Append(c2, g));
      CompoundLowering(c, f, g, t, name, ass.scope);
      assert [LoadCode] + g.commands + [CompoundOpcode(t), StoreCode] == [LoadCode, PushCode, CompoundOpcode(t), StoreCode];
      assert f.args + [NameC(name)] + g.args + [NameC(name)] == f.args + [NameC(name), IntC(1), NameC(name)];
    } else {
      CompileExpAppends(src, ass.exp, c2);
      CompoundLowering(c, f, f, t, name, ass.scope);
    }
  }

  /** The statement kinds the loop lowers without returning early. */
  ghost predicate Lowered(src: string, s: Stmt)
  {
    s.OpenScopeStmt? || s.CloseScopeStmt? ||
    (s.OnelinerStmt? && s.oneliner.AssignmentOL? &&
     var ass := s.oneliner.assignment;
     IsLoweredOp(ass.op.ttype) && ExpCode(src, ass.exp).Emits? && Lexeme(src, ass.variable).Some?)
  }

  /** Code without scope opcodes. */
  predicate ScopeFree(ops: seq<OpCode>)
  {
    forall i :: 0 <= i < |ops| ==> !ops[i].CreateScopeCode? && !ops[i].DestroyScopeCode?
  }

  /** Scope-free code counts no scope opcode. */
  lemma {:induction false} NoScopeCodes(ops: seq<OpCode>)
    requires ScopeFree(ops)
    ensures CountOf(ops, CreateScopeCode) == 0 && CountOf(ops, DestroyScopeCode) == 0
    decreases |ops|
  {
    if ops != [] {
      NoScopeCodes(ops[..|ops| - 1]);
    }
  }

  /** The code of a lowered assignment holds no scope opcode. */
  lemma AssignNoScopes(f: Fragment, t: TokenType, name: Option<string>, scope: int)
    requires ExpShaped(f) && IsLoweredOp(t)
    ensures ScopeFree(AssignCode(f, t, name, scope).commands)
  {
    var ops := AssignCode(f, t, name, scope).commands;
    var m := |f.commands|;
    forall i | 0 <= i < |ops|
      ensures !ops[i].CreateScopeCode? && !ops[i].DestroyScopeCode?
    {
      if i < m {
        assert ops[i] == f.commands[i];
        ValueOpsAt(f.commands, i);
      } else if IsCompound(t) && !t.Inc? && !t.Dec? && m < i <= 2 * m {
        assert ops[i] == f.commands[i - m - 1];
        ValueOpsAt(f.commands, i - m - 1);
      }
    }
  }

  /** The code one lowered statement appends: scope opcodes only for braces. */
  lemma StepScopes(src: string, s: Stmt, c: Code)
    requires !c.hasError && Lowered(src, s)
    ensures StmtStep(src, s, c).Proceed?
    ensures var c1 := StmtStep(src, s, c).code;
      !c1.hasError && |c.commands| <= |c1.commands| && c1.commands[..|c.commands|] == c.commands &&
      CountOf(c1.commands[|c.commands|..], CreateScopeCode) == (if s.OpenScopeStmt? then 1 else 0) &&
      CountOf(c1.commands[|c.commands|..], DestroyScopeCode) == (if s.CloseScopeStmt? then 1 else 0)
  {
    if s.OnelinerStmt? {
      var ass := s.oneliner.assignment;
      var f := ExpCode(src, ass.exp).f;
      var code := AssignCode(f, ass.op.ttype, Lexeme(src, ass.variable).value, ass.scope);
      AssignLowering(src, ass, c);
      ExpCodeShape(src, ass.exp);
      AssignNoScopes(f, ass.op.ttype, Lexeme(src, ass.variable).value, ass.scope);
      NoScopeCodes(code.commands);
      var c1 := StmtStep(src, s, c).code;
      assert c1.commands[|c.commands|..] == code.commands;
    } else {
      var c1 := StmtStep(src, s, c).code;
      assert c1.commands[|c.commands|..] == [c1.commands[|c.commands|]];
      CountOfOne(c1.commands[|c.commands|], CreateScopeCode);
      CountOfOne(c1.commands[|c.commands|], DestroyScopeCode);
    }
  }

  /** Counting the opcodes appended over two steps. */
  lemma CountAppended(a: seq<OpCode>, b: seq<OpCode>, d: seq<OpCode>, op: OpCode)
    requires |a| <= |b| <= |d| && b[..|a|] == a && d[..|b|] == b
    ensures CountOf(d[|a|..], op) == CountOf(b[|a|..], op) + CountOf(d[|b|..], op)
  {
    assert d[|a|..] == b[|a|..] + d[|b|..];
    CountOfConcat(b[|a|..], d[|b|..], op);
  }

  /** When every statement from `i` on is lowered, the loop runs to the end:
      no error, the closing `DestroyScope` last, and one `CreateScope` per
      `{` and one `DestroyScope` per `}` besides it. */
  lemma {:induction false} CompileFromLowered(src: string, stmts: seq<Stmt>, i: nat, c: Code)
    requires i <= |stmts| && !c.hasError
    requires forall k :: i <= k < |stmts| ==> Lowered(src, stmts[k])
    ensures CompileFrom(src, stmts, i, c).Done?
    ensures var c1 := CompileFrom(src, stmts, i, c).code;
      !c1.hasError && |c.commands| < |c1.commands| && c1.commands[..|c.commands|] == c.commands &&
      c1.commands[|c1.commands| - 1].DestroyScopeCode? &&
      CountOf(c1.commands[|c.commands|..], CreateScopeCode) == Opens(stmts[i..]) &&
      CountOf(c1.commands[|c.commands|..], DestroyScopeCode) == 1 + Closes(stmts[i..])
    decreases |stmts| - i
  {
    if i == |stmts| {
      var c1 := CompileFrom(src, stmts, i, c).code;
      assert c1.commands == c.commands + [DestroyScopeCode];
      assert c1.commands[|c.commands|..] == [DestroyScopeCode];
      CountOfOne(DestroyScopeCode, CreateScopeCode);
      CountOfOne(DestroyScopeCode, DestroyScopeCode);
      assert stmts[i..] == [];
    } else {
      StepScopes(src, stmts[i], c);
      var c0 := StmtStep(src, stmts[i], c).code;
      CompileFromLowered(src, stmts, i + 1, c0);
      var c1 := CompileFrom(src, stmts, i, c).code;
      assert c1 == CompileFrom(src, stmts, i + 1, c0).code;
      assert stmts[i..][1..] == stmts[i + 1..];
      StepThenRest(c, c0, c1, stmts[i..]);
    }
  }

  /** The code of one statement followed by the code of the rest of the
      loop is the code of the statement and the rest. */
  lemma StepThenRest(c: Code, c0: Code, c1: Code, all: seq<Stmt>)
    requires |all| > 0
    requires |c.commands| <= |c0.commands| && c0.commands[..|c.commands|] == c.commands
    requires CountOf(c0.commands[|c.commands|..], CreateScopeCode) == (if all[0].OpenScopeStmt? then 1 else 0)
    requires CountOf(c0.commands[|c.commands|..], DestroyScopeCode) == (if all[0].CloseScopeStmt? then 1 else 0)
    requires !c1.hasError && |c0.commands| < |c1.commands| && c1.commands[..|c0.commands|] == c0.commands
    requires c1.commands[|c1.commands| - 1].DestroyScopeCode?
    requires CountOf(c1.commands[|c0.commands|..], CreateScopeCode) == Opens(all[1..])
    requires CountOf(c1.commands[|c0.commands|..], DestroyScopeCode) == 1 + Closes(all[1..])
    ensures !c1.hasError && |c.commands| < |c1.commands| && c1.commands[..|c.commands|] == c.commands &&
      c1.commands[|c1.commands| - 1].DestroyScopeCode? &&
      CountOf(c1.commands[|c.commands|..], CreateScopeCode) == Opens(all) &&
      CountOf(c1.commands[|c.commands|..], DestroyScopeCode) == 1 + Closes(all)
  {
    assert c1.commands[..|c.commands|] == c1.commands[..|c0.commands|][..|c.commands|];
    CountAppended(c.commands, c0.commands, c1.commands, CreateScopeCode);
    CountAppended(c.commands, c0.commands, c1.commands, DestroyScopeCode);
  }

  /** A program of lowered statements compiles without error to code that
      starts with `CreateScope`, ends with `DestroyScope`, and holds one
      `CreateScope` per `{` and one `DestroyScope` per `}` besides those. */
  lemma ProgramBracketed(src: string, stmts: seq<Stmt>, c: Code)
    requires |stmts| > 0 && !c.hasError
    requires forall k :: 0 <= k < |stmts| ==> Lowered(src, stmts[k])
    ensures CompileProgram(src, stmts, c).Done?
    ensures var c1 := CompileProgram(src, stmts, c).code;
      !c1.hasError && |c.commands| < |c1.commands| && c1.commands[..|c.commands|] == c.commands &&
      var body := c1.commands[|c.commands|..];
      body[0].CreateScopeCode? && body[|body| - 1].DestroyScopeCode? &&
      CountOf(body, CreateScopeCode) == 1 + Opens(stmts) &&
      CountOf(body, DestroyScopeCode) == 1 + Closes(stmts)
  {
    var c0 := Emit(c, CreateScopeCode);
    CompileFromLowered(src, stmts, 0, c0);
    var c1 := CompileFrom(src, stmts, 0, c0).code;
    assert stmts[0..] == stmts;
    CountAppended(c.commands, c0.commands, c1.commands, CreateScopeCode);
    CountAppended(c.commands, c0.commands, c1.commands, DestroyScopeCode);
    assert c0.commands[|c.commands|..] == [CreateScopeCode];
    CountOfOne(CreateScopeCode, CreateScopeCode);
    CountOfOne(CreateScopeCode, DestroyScopeCode);
  }

  /** An empty program emits nothing. */
  lemma EmptyProgram(src: string, c: Code)
    ensures CompileProgram(src, [], c) == Done(c)
  {
  }

  /** A statement the loop does not lower (a call, `if`, `for`, `fn`,
      `break`, `continue`, `return`) ends compilation on the spot: no error
      is set and no closing `DestroyScope` is emitted. */
  lemma UnsupportedStops(src: string, stmts: seq<Stmt>, i: nat, c: Code)
    requires i < |stmts|
    requires !stmts[i].OpenScopeStmt? && !stmts[i].CloseScopeStmt?
    requires !(stmts[i].OnelinerStmt? && stmts[i].oneliner.AssignmentOL?)
    ensures CompileFrom(src, stmts, i, c) == Done(c)
  {
  }

  /** An assignment operator the switch does not know ends compilation
      after the expression code, without setting the error flag and
      without the closing `DestroyScope`. */
  lemma IllegalOperatorStops(src: string, stmts: seq<Stmt>, i: nat, c: Code)
    requires i < |stmts| && !c.hasError
    requires stmts[i].OnelinerStmt? && stmts[i].oneliner.AssignmentOL?
    requires ExpCode(src, stmts[i].oneliner.assignment.exp).Emits?
    requires !IsLoweredOp(stmts[i].oneliner.assignment.op.ttype)
    ensures CompileFrom(src, stmts, i, c) == Done(Append(c, ExpCode(src, stmts[i].oneliner.assignment.exp).f))
    ensures !CompileFrom(src, stmts, i, c).code.hasError
  {
    CompileExpAppends(src, stmts[i].oneliner.assignment.exp, c);
  }

  /** An assignment whose expression is rejected ends compilation with the
      error set, after the part of the expression emitted before the
      rejection. */
  lemma RejectedAssignmentStops(src: string, stmts: seq<Stmt>, i: nat, c: Code)
    requires i < |stmts| && !c.hasError
    requires stmts[i].OnelinerStmt? && stmts[i].oneliner.AssignmentOL?
    requires ExpCode(src, stmts[i].oneliner.assignment.exp).Rejects?
    ensures CompileFrom(src, stmts, i, c) ==
      Done(Append(c, ExpCode(src, stmts[i].oneliner.assignment.exp).f).(hasError := true))
  {
    CompileExpAppends(src, stmts[i].oneliner.assignment.exp, c);
  }

  // ---------------------------------------------------------------------
  // The imperative emitter

  /** The output buffers of `compile_to_bytecode` and its `has_error`
      flag, grown in place by `add_command`, `add_constant` and
      `add_ref_scopes`. */
  class Emitter {
    var commands: seq<OpCode>
    var args: seq<Constant>
    var refScopes: seq<int>
    var hasError: bool

    function State(): Code
      reads this
    {
      Code(commands, args, refScopes, hasError)
    }

    /** Empty buffers and the caller's initial flag. */
    constructor (hasError: bool)
      ensures State() == Code([], [], [], hasError)
    {
      commands := [];
      args := [];
      refScopes := [];
      this.hasError := hasError;
    }

    /** `add_command`: one more opcode at the end. */
    method AddCommand(op: OpCode)
      modifies this
      ensures State() == Emit(old(State()), op)
    {
      commands := commands + [op];
    }

    /** `add_constant`: one more constant at the end. */
    method AddConstant(k: Constant)
      modifies this
      ensures State() == old(State()).(args := old(args) + [k])
    {
      args := args + [k];
    }

    /** `add_ref_scopes`: one more scope at the end. */
    method AddRefScope(scope: int)
      modifies this
      ensures State() == old(State()).(refScopes := old(refScopes) + [scope])
    {
      refScopes := refScopes + [scope];
    }

    /** `compile_expression`. */
    method CompileExpression(src: string, e: Option<Expression>)
      requires CompileExp(src, e, State()).Done?
      modifies this
      ensures State() == CompileExp(src, e, old(State())).code
      decreases e, 1
    {
      var ex := e.value;
      if ex.FnCallExp? || !ex.exp.dtype.value.Simple? {
        hasError := true;
        return;
      }
      var op := ex.exp;
      var tt := op.token.ttype;
      if tt.Number? || tt.True? || tt.False? || tt.Identifier? {
        CompileLeaf(src, op);
      } else if tt.Not? {
        CompileNot(src, op);
      } else if BinaryOpcode(tt).Some? {
        CompileBinary(src, op);
      } else {
        hasError := true;
      }
    }

    /** The literal and identifier cases of `compile_expression`. */
    method CompileLeaf(src: string, op: OpExpression)
      requires op.token.ttype.Number? || op.token.ttype.True? || op.token.ttype.False? || op.token.ttype.Identifier?
      requires op.dtype.Some? && op.dtype.value.Simple?
      requires CompileExp(src, Some(ExpExp(op)), State()).Done?
      modifies this
      ensures State() == CompileExp(src, Some(ExpExp(op)), old(State())).code
    {
      var tt := op.token.ttype;
      if tt.Number? {
        var text := Substring(src, op.token.start, op.token.end);
        var value := Atoi(text.value[..op.token.end - op.token.start]);
        AddCommand(PushCode);
        AddConstant(IntC(value.value));
      } else if tt.True? || tt.False? {
        AddCommand(PushCode);
        AddConstant(BoolC(tt.True?));
      } else {
        AddCommand(LoadCode);
        var name := NameOf(src, op.token);
        AddConstant(NameC(name));
        AddRefScope(op.scope);
      }
    }

    /** The `!` case of `compile_expression`. */
    method CompileNot(src: string, op: OpExpression)
      requires op.token.ttype.Not?
      requires op.dtype.Some? && op.dtype.value.Simple?
      requires CompileExp(src, Some(ExpExp(op)), State()).Done?
      modifies this
      ensures State() == CompileExp(src, Some(ExpExp(op)), old(State())).code
      decreases Some(ExpExp(op)), 0
    {
      CompileExpression(src, op.left);
      if hasError {
        return;
      }
      AddCommand(BoolNotCode);
    }

    /** The binary-operator case of `compile_expression`. */
    method CompileBinary(src: string, op: OpExpression)
      requires BinaryOpcode(op.token.ttype).Some?
      requires op.dtype.Some? && op.dtype.value.Simple?
      requires CompileExp(src, Some(ExpExp(op)), State()).Done?
      modifies this
      ensures State() == CompileExp(src, Some(ExpExp(op)), old(State())).code
      decreases Some(ExpExp(op)), 0
    {
      CompileExpression(src, op.left);
      if hasError {
        return;
      }
      CompileExpression(src, op.right);
      if hasError {
        return;
      }
      var command := match op.token.ttype
        case Plus => IntAddCode case Minus => IntSubtractCode
        case Star => IntMultiplyCode case Slash => IntDivideCode
        case Mod => IntModCode case EqEq => IntEqCode
        case NotEq => IntNotEqCode case Lt => IntLtCode
        case Gt => IntGtCode case LtE => IntLtECode
        case GtE => IntGtECode case And => BoolAndCode
        case _ => BoolOrCode;
      AddCommand(command);
    }

    /** `substring` of a token as a name constant. */
    method NameOf(src: string, t: Token) returns (name: Option<string>)
      requires Lexeme(src, t).Some?
      ensures name == Lexeme(src, t).value
    {
      var text := Substring(src, t.start, t.end);
      name := if text.None? then None else Some(text.value[..t.end - t.start]);
    }

    /** One pass of `compile_to_bytecode`'s loop; `stop` when it returns. */
    method CompileStatement(src: string, s: Stmt) returns (stop: bool)
      requires StmtStep(src, s, State()) != Fault
      modifies this
      ensures StmtStep(src, s, old(State())) == if stop then Halt(State()) else Proceed(State())
    {
      if s.OnelinerStmt? && s.oneliner.AssignmentOL? {
        var ass := s.oneliner.assignment;
        CompileExpression(src, ass.exp);
        if hasError {
          return true;
        }
        var t := ass.op.ttype;
        if t.ColEq? || t.Eq? {
          AddCommand(StoreCode);
        } else if IsCompound(t) {
          var name := NameOf(src, ass.variable);
          AddCommand(LoadCode);
          AddConstant(NameC(name));
          if t.Inc? || t.Dec? {
            AddCommand(PushCode);
            AddConstant(IntC(1));
          } else {
            CompileExpression(src, ass.exp);
          }
          var command := match t
            case Inc => IntAddCode case PlusEq => IntAddCode
            case Dec => IntSubtractCode case MinusEq => IntSubtractCode
            case StarEq => IntMultiplyCode case SlashEq => IntDivideCode
            case _ => IntModCode;
          AddCommand(command);
          AddCommand(StoreCode);
        } else {
          return true;
        }
        var name := NameOf(src, ass.variable);
        AddConstant(NameC(name));
        AddRefScope(ass.scope);
        return false;
      } else if s.OpenScopeStmt? {
        AddCommand(CreateScopeCode);
        return false;
      } else if s.CloseScopeStmt? {
        AddCommand(DestroyScopeCode);
        return false;
      }
      return true;
    }

    /** `compile_to_bytecode`: the whole program into the buffers. */
    method CompileToBytecode(src: string, stmts: seq<Stmt>)
      requires CompileProgram(src, stmts, State()).Done?
      modifies this
      ensures State() == CompileProgram(src, stmts, old(State())).code
    {
      if |stmts| == 0 {
        return;
      }
      AddCommand(CreateScopeCode);
      for i := 0 to |stmts|
        invariant CompileFrom(src, stmts, i, State()) == CompileProgram(src, stmts, old(State()))
      {
        var stop := CompileStatement(src, stmts[i]);
        if stop {
          return;
        }
      }
      AddCommand(DestroyScopeCode);
    }
  }
}
