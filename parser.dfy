/** The recursive-descent parser of include/parser.c: types, expressions
    with precedence climbing, one-line statements and blocks, first as
    functions of the token sequence and a cursor, then as the `ParseCache`
    class whose methods move the cursor as the C functions do and are
    proved to agree with those functions.

    Reading a token beyond the end of the token array is undefined
    behaviour in C, and so is forming the address of a token more than one
    place past its end (section 6.5.6 of the C11 standard); every function
    below returns `PUndef` for them. The address one past the end is
    legal as long as nothing reads through it. */
module Parser {
  import opened Utils
  import opened Tokens
  import opened Ast

  /** `EOF_PREC` and `PAREN_PREC`. */
  const EofPrec: int := -1
  const ParenPrec: int := 0

  /** The precedence table the driver fills in (main.c): tokens it does not
      mention keep the table's defaults, -1 for Illegal and 0 otherwise. */
  function Prec(t: TokenType): int
  {
    match t
    case Illegal => -1
    case Number => 1
    case Identifier => 1
    case True => 1
    case False => 1
    case Or => 2
    case And => 3
    case Lt => 4
    case Gt => 4
    case EqEq => 4
    case NotEq => 4
    case Plus => 5
    case Minus => 5
    case Star => 6
    case Slash => 6
    case Mod => 7
    case _ => 0
  }

  /** The table of legal infix operators the driver fills in (main.c). */
  predicate LegalInfix(t: TokenType)
  {
    match t
    case Plus | Minus | Star | Slash | Mod | Or | And | EqEq | NotEq | Gt | Lt | GtE | LtE => true
    case _ => false
  }

  /** The entry of the infix table for `t`: 1 for a legal infix operator;
      the table's defaults give -1 for Illegal and 0 otherwise. */
  function InfixFlag(t: TokenType): int
  {
    if t.Illegal? then -1 else if LegalInfix(t) then 1 else 0
  }

  /** The type of a binary node: `int` for arithmetic, `bool` otherwise. */
  function InfixType(t: TokenType): DataType
  {
    match t
    case Plus | Minus | Star | Slash | Mod => Int
    case _ => Bool
  }

  /** The complaints of the parser. */
  datatype Problem =
    | ExpectedEndMark
    | ExpectedAssign
    | ExpectedCommaOfRightParen
    | ExpectedCommaOrRightParen
    | ExpectedFnBody
    | ExpectedFnName
    | ExpectedFnParams
    | ExpectedArgs
    | ExpectedParamName
    | ExpectedParamType
    | ExpectedSemicolonAfterAfter
    | ExpectedSemicolonAfterCondition
    | ExpectedSemicolonAfterInit
    | ExpectedSemicolon
    | ExpectedType
    | InvalidInfix
    | NoConditionalBlock
    | NoElseBlock
    | ScopeNotClosed
    | UnexpectedOperator
    | UnexpectedPrefix
    | NoScopeToClose
    | UnexpectedToken

  /** The message printed for each complaint, spelt as the parser spells it. */
  function Message(p: Problem): string
  {
    match p
    case ExpectedEndMark => "expected ; at the end of the statement"
    case ExpectedAssign => "expected ="
    case ExpectedCommaOfRightParen => "expected comma of right paren"
    case ExpectedCommaOrRightParen => "expected comma or right paren"
    case ExpectedFnBody => "expected function body"
    case ExpectedFnName => "expected function name"
    case ExpectedFnParams => "expected function parameters"
    case ExpectedArgs => "expected list of arguments"
    case ExpectedParamName => "expected parameter name"
    case ExpectedParamType => "expected parameter type"
    case ExpectedSemicolonAfterAfter => "expected semicolon after after"
    case ExpectedSemicolonAfterCondition => "expected semicolon after condition"
    case ExpectedSemicolonAfterInit => "expected semicolon after init"
    case ExpectedSemicolon => "expected semicolon at the end of the statement"
    case ExpectedType => "expected type specification"
    case InvalidInfix => "invalid infix"
    case NoConditionalBlock => "no block provided for conditional"
    case NoElseBlock => "no block provided for else"
    case ScopeNotClosed => "unexpected EOF: scope not closed"
    case UnexpectedOperator => "unexpected operator"
    case UnexpectedPrefix => "unexpected prefix"
    case NoScopeToClose => "unexpected right brace: no open scope to close"
    case UnexpectedToken => "unexpected token"
  }

  /** `Error` with type `ParseError`: the complaint and the token it blames. */
  datatype ParseErr = ParseErr(problem: Problem, token: Token)

  /** The outcome of a parse function: a value and the cursor it leaves,
      an error and the cursor at which it was raised, or a read beyond the
      token array. */
  datatype PResult<T> = POk(value: T, pos: nat) | PErr(err: ParseErr, pos: nat) | PUndef

  /** An unsuccessful outcome passed on unchanged. */
  function Fail<A, B>(r: PResult<A>): (f: PResult<B>)
    requires !r.POk?
    ensures f.PErr? == r.PErr? && (f.PErr? ==> f.err == r.err && f.pos == r.pos)
  {
    if r.PErr? then PErr(r.err, r.pos) else PUndef
  }

  /** Termination measure: the tokens not yet behind the cursor; every
      cursor past the end counts as none. */
  function Remaining(toks: seq<Token>, pos: nat): nat
  {
    if pos <= |toks| then |toks| - pos + 1 else 0
  }

  function Literal(t: DataType, token: Token): Expression
  {
    ExpExp(OpExpressionCreate(token).(dtype := Some(Simple(t))))
  }

  // ---------------------------------------------------------------------
  // Types

  /** `parse_type`: `int`, `bool`, or a function type; the cursor is left
      on the last token of the type. */
  function TypeAt(toks: seq<Token>, pos: nat): (r: PResult<GenericType>)
    ensures r.POk? ==> pos <= r.pos < |toks|
    decreases Remaining(toks, pos), 1
  {
    if pos >= |toks| then PUndef
    else
      var token := toks[pos];
      match token.ttype
      case IntType => POk(Simple(Int), pos)
      case BoolType => POk(Simple(Bool), pos)
      case Fn => FnTypeAt(toks, pos)
      case _ => PErr(ParseErr(ExpectedType, token), pos)
  }

  /** The `fn` case of `parse_type`: `fn(T, ...)` with an optional `: R`. */
  function FnTypeAt(toks: seq<Token>, pos: nat): (r: PResult<GenericType>)
    requires pos < |toks|
    ensures r.POk? ==> pos <= r.pos < |toks|
    decreases Remaining(toks, pos), 0
  {
    var token := toks[pos];
    if pos + 1 >= |toks| then PUndef
    else if !toks[pos + 1].ttype.LParen? then PErr(ParseErr(ExpectedArgs, token), pos)
    else if pos + 2 >= |toks| then PUndef
    else
      var ps := if !toks[pos + 2].ttype.RParen? then TypeParamsAt(toks, pos + 2, []) else POk([], pos + 2);
      if !ps.POk? then Fail(ps)
      else
        var q := ps.pos;
        if q + 1 >= |toks| then PUndef
        else if !toks[q + 1].ttype.Colon? then
          POk(Complex(FunctionType(ps.value, Some(Simple(Void)))), q)
        else
          var rt := TypeAt(toks, q + 2);
          if !rt.POk? then Fail(rt)
          else POk(Complex(FunctionType(ps.value, Some(rt.value))), rt.pos)
  }

  /** The parameter-type loop of `parse_type`: unnamed parameters separated
      by commas, ending on `)`. */
  function TypeParamsAt(toks: seq<Token>, pos: nat, acc: seq<FnParam>): (r: PResult<seq<FnParam>>)
    ensures r.POk? ==> pos <= r.pos < |toks|
    decreases Remaining(toks, pos), 2
  {
    var t := TypeAt(toks, pos);
    if !t.POk? then Fail(t)
    else
      var q := t.pos + 1;
      var ps := acc + [FnParam(None, Some(t.value))];
      if q >= |toks| then PUndef
      else if toks[q].ttype.RParen? then POk(ps, q)
      else if toks[q].ttype.Comma? then TypeParamsAt(toks, q + 1, ps)
      else PErr(ParseErr(ExpectedCommaOrRightParen, toks[q]), q)
  }

  /** One `name: T` parameter of `parse_fn_params`; the cursor is left on
      the last token of the type. */
  function FnParamAt(toks: seq<Token>, pos: nat): (r: PResult<FnParam>)
    ensures r.POk? ==> pos <= r.pos < |toks|
    decreases Remaining(toks, pos), 2
  {
    if pos >= |toks| then PUndef
    else if !toks[pos].ttype.Identifier? then PErr(ParseErr(ExpectedParamName, toks[pos]), pos)
    else if pos + 1 >= |toks| then PUndef
    else if !toks[pos + 1].ttype.Colon? then PErr(ParseErr(ExpectedParamType, toks[pos + 1]), pos)
    else
      var t := TypeAt(toks, pos + 2);
      if !t.POk? then Fail(t) else POk(FnParam(Some(toks[pos]), Some(t.value)), t.pos)
  }

  /** `parse_fn_params`: parameters separated by commas, ending on `)`. */
  function FnParamsAt(toks: seq<Token>, pos: nat, acc: seq<FnParam>): (r: PResult<seq<FnParam>>)
    ensures r.POk? ==> pos <= r.pos < |toks|
    decreases Remaining(toks, pos), 3
  {
    var p := FnParamAt(toks, pos);
    if !p.POk? then Fail(p)
    else
      var q := p.pos + 1;
      var ps := acc + [p.value];
      if q >= |toks| then PUndef
      else if toks[q].ttype.Comma? then FnParamsAt(toks, q + 1, ps)
      else if toks[q].ttype.RParen? then POk(ps, q)
      else if q + 1 >= |toks| then PUndef
      else PErr(ParseErr(ExpectedCommaOfRightParen, toks[q + 1]), q)
  }

  // ---------------------------------------------------------------------
  // Expressions

  /** `parse_fn_call` at `name (`: the arguments, the cursor left on `)`. */
  function FnCallAt(toks: seq<Token>, pos: nat): (r: PResult<Call>)
    ensures r.POk? ==> pos <= r.pos < |toks|
    decreases Remaining(toks, pos), 1
  {
    if pos + 2 >= |toks| then PUndef
    else
      var name := toks[pos];
      if toks[pos + 2].ttype.RParen? then POk(CallCreate(name), pos + 2)
      else
        var args := CallArgsAt(toks, pos + 2, []);
        if !args.POk? then Fail(args)
        else POk(CallCreate(name).(args := args.value), args.pos)
  }

  /** The argument loop of `parse_fn_call`. */
  function CallArgsAt(toks: seq<Token>, pos: nat, acc: seq<Expression>): (r: PResult<seq<Expression>>)
    ensures r.POk? ==> pos <= r.pos < |toks|
    decreases Remaining(toks, pos), 4
  {
    var e := ExpAt(toks, pos, ParenPrec, Comma);
    if !e.POk? then Fail(e)
    else
      var next := toks[e.pos + 1];
      var args := acc + [e.value];
      if next.ttype.Comma? then CallArgsAt(toks, e.pos + 2, args)
      else if next.ttype.RParen? then POk(args, e.pos + 1)
      else PErr(ParseErr(ExpectedCommaOrRightParen, next), e.pos)
  }

  /** `parse_prefix`: a literal, `!` and a prefix, an identifier, a call,
      or a parenthesised expression; the cursor is left on its last token. */
  function PrefixAt(toks: seq<Token>, pos: nat): (r: PResult<Expression>)
    ensures r.POk? ==> pos <= r.pos < |toks|
    decreases Remaining(toks, pos), 2
  {
    if pos >= |toks| then PUndef
    else
      var token := toks[pos];
      match token.ttype
      case Number => POk(Literal(Int, token), pos)
      case True => POk(Literal(Bool, token), pos)
      case False => POk(Literal(Bool, token), pos)
      case Not =>
        var sub := PrefixAt(toks, pos + 1);
        if !sub.POk? then Fail(sub)
        else POk(ExpExp(OpExpressionCreate(token).(dtype := Some(Simple(Bool)), left := Some(sub.value))), sub.pos)
      case Identifier =>
        if pos + 1 >= |toks| then PUndef
        else if !toks[pos + 1].ttype.LParen? then POk(ExpExp(OpExpressionCreate(token)), pos)
        else
          var c := FnCallAt(toks, pos);
          // the address of the token under the cursor is taken even when the call failed
          if c.PUndef? || c.pos > |toks| then PUndef
          else if c.PErr? then Fail(c)
          else POk(FnCallExp(c.value), c.pos)
      case LParen =>
        var e := ExpAt(toks, pos + 1, ParenPrec, RParen);
        if !e.POk? then Fail(e) else POk(e.value, e.pos + 1)
      case _ => PErr(ParseErr(UnexpectedPrefix, token), pos)
  }

  /** `parse_exp`: a prefix, then the operator loop. The cursor is left on
      the last token of the expression, and a token follows it. */
  function ExpAt(toks: seq<Token>, pos: nat, prec: int, end: TokenType): (r: PResult<Expression>)
    ensures r.POk? ==> pos <= r.pos && r.pos + 1 < |toks|
    decreases Remaining(toks, pos), 3
  {
    var left := PrefixAt(toks, pos);
    if !left.POk? then Fail(left) else ExpLoopAt(toks, left.pos, prec, end, left.value)
  }

  /** The operator loop of `parse_exp` with `left` parsed up to `pos`: stop
      before `end` or an operator that binds no tighter than `prec`;
      otherwise parse the right operand at the operator's precedence and
      continue with the combined node as the left operand. */
  function ExpLoopAt(toks: seq<Token>, pos: nat, prec: int, end: TokenType, left: Expression): (r: PResult<Expression>)
    ensures r.POk? ==> pos <= r.pos && r.pos + 1 < |toks|
    decreases Remaining(toks, pos), 1
  {
    if pos + 1 >= |toks| then PUndef
    else
      var op := toks[pos + 1];
      if op.ttype.Eof? then PErr(ParseErr(ExpectedEndMark, toks[pos]), pos)
      else if op.ttype == end || prec >= Prec(op.ttype) then POk(left, pos)
      else if InfixFlag(op.ttype) == 0 then PErr(ParseErr(InvalidInfix, op), pos)
      else
        var right := ExpAt(toks, pos + 2, Prec(op.ttype), end);
        if !right.POk? then Fail(right)
        else ExpLoopAt(toks, right.pos, prec, end, Binary(op, left, right.value))
  }

  /** The node `parse_exp` builds for `left op right`. */
  function Binary(op: Token, left: Expression, right: Expression): Expression
  {
    ExpExp(OpExpression(Some(Simple(InfixType(op.ttype))), op, Some(left), Some(right), -1))
  }

  /** `>=` and `<=` are legal infix operators with precedence 0, the
      precedence of a parenthesised expression or argument: there, and in
      every right operand, they end the expression before them; only at
      the precedence of a whole statement's expression is the operator and
      its right operand taken in. */
  lemma WeakComparisons(toks: seq<Token>, pos: nat, prec: int, end: TokenType, left: Expression)
    requires pos + 1 < |toks| && (toks[pos + 1].ttype.GtE? || toks[pos + 1].ttype.LtE?)
    requires !end.GtE? && !end.LtE?
    ensures prec >= ParenPrec ==> ExpLoopAt(toks, pos, prec, end, left) == POk(left, pos)
    ensures prec == EofPrec && ExpLoopAt(toks, pos, prec, end, left).POk? ==>
      ExpLoopAt(toks, pos, prec, end, left).pos >= pos + 2
  {
  }

  // ---------------------------------------------------------------------
  // Statements

  /** The assignment operators that take an expression. */
  predicate AssignOp(t: TokenType)
  {
    match t
    case Eq | ColEq | PlusEq | MinusEq | StarEq | SlashEq | ModEq => true
    case _ => false
  }

  /** `parse_oneliner` at an identifier: a call, `x++`/`x--`, `x op= e`, or
      the declaration `x: T = e`; the cursor is left on its last token. */
  function OnelinerAt(toks: seq<Token>, pos: nat, end: TokenType): (r: PResult<Oneliner>)
    ensures r.POk? ==> pos <= r.pos < |toks|
    decreases Remaining(toks, pos), 5
  {
    if pos + 1 >= |toks| then PUndef
    else
      var name := toks[pos];
      var next := toks[pos + 1];
      if next.ttype.LParen? then
        var c := FnCallAt(toks, pos);
        if !c.POk? then Fail(c) else POk(CallOL(c.value), c.pos)
      else if next.ttype.Inc? || next.ttype.Dec? then
        POk(AssignmentOL(AssignmentCreate(name, next)), pos + 1)
      else if AssignOp(next.ttype) then
        AssignedAt(toks, pos + 2, end, AssignmentCreate(name, next).(newVar := next.ttype.ColEq?))
      else if next.ttype.Colon? then
        var t := TypeAt(toks, pos + 2);
        if !t.POk? then Fail(t)
        else if t.pos + 1 >= |toks| then PUndef
        else
          var eq := toks[t.pos + 1];
          if !eq.ttype.Eq? then PErr(ParseErr(ExpectedAssign, eq), t.pos)
          else AssignedAt(toks, t.pos + 2, end, AssignmentCreate(name, eq).(dtype := Some(t.value), newVar := true))
      else PErr(ParseErr(UnexpectedOperator, next), pos)
  }

  /** The expression that completes the assignment `a`. */
  function AssignedAt(toks: seq<Token>, pos: nat, end: TokenType, a: Assignment): (r: PResult<Oneliner>)
    ensures r.POk? ==> pos <= r.pos < |toks|
    ensures r.POk? ==> r.value.AssignmentOL? && r.value.assignment == a.(exp := r.value.assignment.exp)
    ensures r.POk? ==> r.value.assignment.exp.Some?
    decreases Remaining(toks, pos), 4
  {
    var e := ExpAt(toks, pos, EofPrec, end);
    if !e.POk? then Fail(e) else POk(AssignmentOL(a.(exp := Some(e.value))), e.pos)
  }

  /** `break;` or `continue;`: the cursor is left on the `;`. */
  function JumpAt(toks: seq<Token>, pos: nat): (r: PResult<Stmt>)
    requires pos < |toks|
    ensures r.POk? ==> r.pos == pos + 1 < |toks|
    ensures r.POk? ==> (r.value.BreakStmt? || r.value.ContinueStmt?) && r.value.token == toks[pos]
  {
    var token := toks[pos];
    if pos + 1 >= |toks| then PUndef
    else if !toks[pos + 1].ttype.Semicolon? then
      PErr(ParseErr(ExpectedSemicolon, token), pos)
    else POk(if token.ttype.Break? then BreakStmt(token) else ContinueStmt(token), pos + 1)
  }

  /** `return;` or `return e;`: the cursor is left on the `;`. */
  function ReturnAt(toks: seq<Token>, pos: nat): (r: PResult<Stmt>)
    requires pos < |toks|
    ensures r.POk? ==> pos < r.pos < |toks|
    ensures r.POk? ==> r.value.ReturnStmt? && r.value.token == toks[pos]
    decreases Remaining(toks, pos), 5
  {
    var token := toks[pos];
    if pos + 1 >= |toks| then PUndef
    else if toks[pos + 1].ttype.Semicolon? then POk(ReturnCreate(token), pos + 1)
    else
      var e := ExpAt(toks, pos + 1, EofPrec, Semicolon);
      if !e.POk? then Fail(e)
      else
        var last := toks[e.pos + 1];
        if !last.ttype.Semicolon? then
          PErr(ParseErr(ExpectedSemicolon, last), e.pos + 1)
        else POk(ReturnStmt(token, Some(e.value)), e.pos + 1)
  }

  /** A one-line statement: the oneliner and its `;`. */
  function SimpleAt(toks: seq<Token>, pos: nat): (r: PResult<Stmt>)
    requires pos < |toks|
    ensures r.POk? ==> pos < r.pos < |toks|
    ensures r.POk? ==> r.value.OnelinerStmt?
    decreases Remaining(toks, pos), 5
  {
    var ol := OnelinerAt(toks, pos, Semicolon);
    if !ol.POk? then Fail(ol)
    else if ol.pos + 1 >= |toks| then PUndef
    else if !toks[ol.pos + 1].ttype.Semicolon? then
      PErr(ParseErr(ExpectedSemicolon, toks[pos]), ol.pos + 1)
    else POk(OnelinerStmt(ol.value), ol.pos + 1)
  }

  /** `if` and `while`: a condition, a block and, after `if`'s block, an
      optional `else` block. The cursor is left on the last `}`. */
  function ConditionalAt(toks: seq<Token>, pos: nat): (r: PResult<Stmt>)
    requires pos < |toks|
    ensures r.POk? ==> pos <= r.pos
    ensures r.POk? ==> r.value.ConditionalStmt? && r.value.conditional.token == toks[pos]
    decreases Remaining(toks, pos), 5
  {
    var cond := ExpAt(toks, pos + 1, EofPrec, LBrace);
    if !cond.POk? then Fail(cond) else ThenAt(toks, cond.pos, toks[pos], cond.value)
  }

  /** The blocks of a conditional whose condition ends at `pos`. */
  function ThenAt(toks: seq<Token>, pos: nat, token: Token, cond: Expression): (r: PResult<Stmt>)
    ensures r.POk? ==> pos <= r.pos
    ensures r.POk? ==> r.value.ConditionalStmt? && r.value.conditional.token == token
    decreases Remaining(toks, pos), 5
  {
    if pos + 1 >= |toks| then PUndef
    else if !toks[pos + 1].ttype.LBrace? then PErr(ParseErr(NoConditionalBlock, token), pos)
    else
      var th := BlockAt(toks, pos + 2, true, []);
      if !th.POk? then Fail(th) else ElseAt(toks, th.pos, token, cond, th.value)
  }

  /** The optional `else` block after a then-block that ends at `pos`. */
  function ElseAt(toks: seq<Token>, pos: nat, token: Token, cond: Expression, th: seq<Stmt>): (r: PResult<Stmt>)
    ensures r.POk? ==> pos <= r.pos
    ensures r.POk? ==> r.value.ConditionalStmt? && r.value.conditional.token == token
    decreases Remaining(toks, pos), 5
  {
    if pos + 1 >= |toks| then PUndef
    else if !toks[pos + 1].ttype.Else? then
      POk(ConditionalStmt(ConditionalCreate(token, cond).(thenBlock := th)), pos)
    else if pos + 2 >= |toks| then PUndef
    else if !toks[pos + 2].ttype.LBrace? then PErr(ParseErr(NoElseBlock, toks[pos]), pos)
    else
      var el := BlockAt(toks, pos + 3, true, []);
      if !el.POk? then Fail(el)
      else POk(ConditionalStmt(Conditional(token, cond, th, el.value)), el.pos)
  }

  /** `for init; condition; after { body }`. */
  function ForAt(toks: seq<Token>, pos: nat): (r: PResult<Stmt>)
    requires pos < |toks|
    ensures r.POk? ==> pos <= r.pos
    ensures r.POk? ==> r.value.ForStmt? && r.value.forLoop.token == toks[pos]
    decreases Remaining(toks, pos), 5
  {
    var init := OnelinerAt(toks, pos + 1, Semicolon);
    if !init.POk? then Fail(init)
    else
      var q := init.pos;
      if q + 1 >= |toks| then PUndef
      else if !toks[q + 1].ttype.Semicolon? then PErr(ParseErr(ExpectedSemicolonAfterInit, toks[q]), q)
      else ForConditionAt(toks, q + 2, toks[pos], init.value)
  }

  /** The rest of a `for` header from its condition on. */
  function ForConditionAt(toks: seq<Token>, pos: nat, token: Token, init: Oneliner): (r: PResult<Stmt>)
    ensures r.POk? ==> pos <= r.pos
    ensures r.POk? ==> r.value.ForStmt? && r.value.forLoop.token == token
    decreases Remaining(toks, pos), 5
  {
    var cond := ExpAt(toks, pos, EofPrec, Semicolon);
    if !cond.POk? then Fail(cond)
    else
      var q := cond.pos;
      if !toks[q + 1].ttype.Semicolon? then PErr(ParseErr(ExpectedSemicolonAfterCondition, toks[q]), q)
      else ForAfterAt(toks, q + 2, token, init, cond.value)
  }

  /** The rest of a `for` statement from its after-statement on. */
  function ForAfterAt(toks: seq<Token>, pos: nat, token: Token, init: Oneliner, cond: Expression): (r: PResult<Stmt>)
    ensures r.POk? ==> pos <= r.pos
    ensures r.POk? ==> r.value.ForStmt? && r.value.forLoop.token == token
    decreases Remaining(toks, pos), 5
  {
    var after := OnelinerAt(toks, pos, Semicolon);
    if !after.POk? then Fail(after)
    else
      var q := after.pos;
      if q + 1 >= |toks| then PUndef
      else if !toks[q + 1].ttype.LBrace? then PErr(ParseErr(ExpectedSemicolonAfterAfter, toks[q]), q)
      else
        var body := BlockAt(toks, q + 2, true, []);
        if !body.POk? then Fail(body)
        else POk(ForStmt(ForLoopCreate(token, init, cond, after.value).(body := body.value)), body.pos)
  }

  /** `fn name(params)[: R] { body }`; without `: R` the return type is
      `void`. */
  function FnAt(toks: seq<Token>, pos: nat): (r: PResult<Stmt>)
    requires pos < |toks|
    ensures r.POk? ==> pos <= r.pos <= |toks|
    ensures r.POk? ==> pos + 1 < |toks| && r.value.FnStmt? && r.value.fnDef.name == toks[pos + 1]
    decreases Remaining(toks, pos), 5
  {
    if pos + 1 >= |toks| then PUndef
    else if !toks[pos + 1].ttype.Identifier? then PErr(ParseErr(ExpectedFnName, toks[pos + 1]), pos)
    else if pos + 2 >= |toks| then PUndef
    else if !toks[pos + 2].ttype.LParen? then PErr(ParseErr(ExpectedFnParams, toks[pos + 2]), pos)
    else if pos + 3 >= |toks| then PUndef
    else
      var params := if !toks[pos + 3].ttype.RParen? then FnParamsAt(toks, pos + 3, []) else POk([], pos + 3);
      if !params.POk? then Fail(params)
      else FnReturnAt(toks, params.pos, toks[pos + 1], params.value)
  }

  /** The rest of a function definition after its parameter list, which
      ends at `pos`: an optional `: R`, then the body. */
  function FnReturnAt(toks: seq<Token>, pos: nat, name: Token, params: seq<FnParam>): (r: PResult<Stmt>)
    ensures r.POk? ==> pos <= r.pos <= |toks|
    ensures r.POk? ==> r.value.FnStmt? && r.value.fnDef.name == name
    decreases Remaining(toks, pos), 5
  {
    if pos + 1 >= |toks| then PUndef
    else
      var rt := if toks[pos + 1].ttype.Colon? then TypeAt(toks, pos + 2) else POk(Simple(Void), pos);
      if !rt.POk? then Fail(rt)
      else FnBodyAt(toks, rt.pos, name, FunctionType(params, Some(rt.value)))
  }

  /** The body of a function definition whose signature ends at `pos`.
      The cursor may end one past the token array when the tokens ran out
      inside the body. */
  function FnBodyAt(toks: seq<Token>, pos: nat, name: Token, fnType: FunctionType): (r: PResult<Stmt>)
    ensures r.POk? ==> pos <= r.pos <= |toks|
    ensures r.POk? ==> r.value.FnStmt? && r.value.fnDef.name == name
    decreases Remaining(toks, pos), 4
  {
    if pos + 1 >= |toks| then PUndef
    else if !toks[pos + 1].ttype.LBrace? then PErr(ParseErr(ExpectedFnBody, toks[pos]), pos)
    else
      var body := BlockAt(toks, pos + 2, true, []);
      if !body.POk? then Fail(body)
      else if body.pos > |toks| then PUndef
      else POk(FnStmt(FnDefinitionCreate(name, fnType).(body := body.value)), body.pos)
  }

  /** One statement of a block that is not a brace or the end of input; the
      cursor is left on its last token. */
  function StmtAt(toks: seq<Token>, pos: nat): (r: PResult<Stmt>)
    requires pos < |toks|
    ensures r.POk? ==> pos <= r.pos
    ensures r.POk? ==> !r.value.OpenScopeStmt? && !r.value.CloseScopeStmt?
    decreases Remaining(toks, pos), 6
  {
    var token := toks[pos];
    match token.ttype
    case Break => JumpAt(toks, pos)
    case Continue => JumpAt(toks, pos)
    case Return => ReturnAt(toks, pos)
    case Identifier => SimpleAt(toks, pos)
    case If => ConditionalAt(toks, pos)
    case While => ConditionalAt(toks, pos)
    case For => ForAt(toks, pos)
    case Fn => FnAt(toks, pos)
    case _ => PErr(ParseErr(UnexpectedToken, token), pos)
  }

  /** `parse`: statements appended to `acc` until the tokens run out, `}`
      (inside a block) or the end of input (at the top level). A brace
      block is flattened into the same list between an open- and a
      close-scope statement. The cursor is left on the token that ended
      the block. */
  function BlockAt(toks: seq<Token>, pos: nat, block: bool, acc: seq<Stmt>): (r: PResult<seq<Stmt>>)
    ensures r.POk? ==> pos <= r.pos
    decreases Remaining(toks, pos), 8
  {
    if pos >= |toks| then POk(acc, pos) else ItemAt(toks, pos, block, acc)
  }

  /** The token under a cursor that is at most one past the token array:
      None stands for the address one past the end. */
  function TokenAddress(toks: seq<Token>, pos: nat): (t: Option<Token>)
    requires pos <= |toks|
    ensures t.None? <==> pos == |toks|
    ensures t.Some? ==> t.value == toks[pos]
  {
    if pos < |toks| then Some(toks[pos]) else None
  }

  /** One round of `parse`'s loop, at the token under the cursor. */
  function ItemAt(toks: seq<Token>, pos: nat, block: bool, acc: seq<Stmt>): (r: PResult<seq<Stmt>>)
    requires pos < |toks|
    ensures r.POk? ==> pos <= r.pos
    decreases Remaining(toks, pos), 7
  {
    var token := toks[pos];
    if token.ttype.LBrace? then
      var inner := BlockAt(toks, pos + 1, true, acc + [OpenScopeStmt(token)]);
      if !inner.POk? then Fail(inner)
      else if inner.pos > |toks| then PUndef
      else BlockAt(toks, inner.pos + 1, block, inner.value + [CloseScopeStmt(TokenAddress(toks, inner.pos))])
    else if token.ttype.RBrace? then
      if block then POk(acc, pos)
      else PErr(ParseErr(NoScopeToClose, token), pos)
    else if token.ttype.Eof? then
      if block then PErr(ParseErr(ScopeNotClosed, token), pos)
      else POk(acc, pos)
    else
      var s := StmtAt(toks, pos);
      if !s.POk? then Fail(s) else BlockAt(toks, s.pos + 1, block, acc + [s.value])
  }

  /** A whole program: the top-level block from the first token. */
  function Parse(toks: seq<Token>): PResult<seq<Stmt>>
  {
    BlockAt(toks, 0, false, [])
  }

  // ---------------------------------------------------------------------
  // What the parser builds

  /** The keywords `int` and `bool` are the primitive types; any token other
      than these and `fn` is rejected where a type is expected. */
  lemma TypeKeywords(toks: seq<Token>, pos: nat)
    requires pos < |toks|
    ensures toks[pos].ttype.IntType? ==> TypeAt(toks, pos) == POk(Simple(Int), pos)
    ensures toks[pos].ttype.BoolType? ==> TypeAt(toks, pos) == POk(Simple(Bool), pos)
    ensures toks[pos].ttype !in {IntType, BoolType, Fn} ==>
      TypeAt(toks, pos) == PErr(ParseErr(ExpectedType, toks[pos]), pos)
  {
  }

  /** `fn()` without `: R` is a function type with no parameters returning
      `void`; the cursor stays on `)`. */
  lemma VoidReturn(f: Token, l: Token, r: Token, next: Token)
    requires f.ttype.Fn? && l.ttype.LParen? && r.ttype.RParen? && !next.ttype.Colon?
    ensures TypeAt([f, l, r, next], 0) == POk(Complex(FunctionType([], Some(Simple(Void)))), 2)
  {
  }

  /** Every parameter in `ps` has a type without a NULL in it. */
  ghost predicate ParamsNullFree(ps: seq<FnParam>)
  {
    forall i :: 0 <= i < |ps| ==> ps[i].dtype.Some? && NullFree(ps[i].dtype.value)
  }

  /** A parsed type has no NULL in it: every function type gets its
      parameter types and a return type, `void` when none is written. */
  lemma {:induction false} TypeNullFree(toks: seq<Token>, pos: nat)
    ensures TypeAt(toks, pos).POk? ==> NullFree(TypeAt(toks, pos).value)
    decreases Remaining(toks, pos), 1
  {
    if pos + 2 < |toks| && toks[pos].ttype.Fn? && toks[pos + 1].ttype.LParen? {
      var ps := if !toks[pos + 2].ttype.RParen? then TypeParamsAt(toks, pos + 2, []) else POk([], pos + 2);
      if !toks[pos + 2].ttype.RParen? {
        TypeParamsNullFree(toks, pos + 2, []);
      }
      if ps.POk? && ps.pos + 1 < |toks| && toks[ps.pos + 1].ttype.Colon? {
        TypeNullFree(toks, ps.pos + 2);
      }
    }
  }

  lemma {:induction false} TypeParamsNullFree(toks: seq<Token>, pos: nat, acc: seq<FnParam>)
    requires ParamsNullFree(acc)
    ensures TypeParamsAt(toks, pos, acc).POk? ==> ParamsNullFree(TypeParamsAt(toks, pos, acc).value)
    decreases Remaining(toks, pos), 2
  {
    var t := TypeAt(toks, pos);
    TypeNullFree(toks, pos);
    if t.POk? && t.pos + 1 < |toks| {
      var ps := acc + [FnParam(None, Some(t.value))];
      assert ParamsNullFree(ps) by {
        forall i | 0 <= i < |ps|
          ensures ps[i].dtype.Some? && NullFree(ps[i].dtype.value)
        {
          if i < |acc| { assert ps[i] == acc[i]; }
        }
      }
      if toks[t.pos + 1].ttype.Comma? {
        TypeParamsNullFree(toks, t.pos + 2, ps);
      }
    }
  }

  /** Every parameter of a parsed parameter list has a name, which is an
      identifier, and a type without a NULL in it. */
  lemma {:induction false} FnParamsNamed(toks: seq<Token>, pos: nat, acc: seq<FnParam>)
    requires ParamsNullFree(acc)
    requires forall i :: 0 <= i < |acc| ==> acc[i].name.Some? && acc[i].name.value.ttype.Identifier?
    ensures var r := FnParamsAt(toks, pos, acc);
      r.POk? ==> (ParamsNullFree(r.value) &&
        forall i :: 0 <= i < |r.value| ==> r.value[i].name.Some? && r.value[i].name.value.ttype.Identifier?)
    decreases Remaining(toks, pos)
  {
    var p := FnParamAt(toks, pos);
    if pos + 1 < |toks| && toks[pos].ttype.Identifier? && toks[pos + 1].ttype.Colon? {
      TypeNullFree(toks, pos + 2);
    }
    if p.POk? && p.pos + 1 < |toks| {
      var ps := acc + [p.value];
      assert ParamsNullFree(ps) && forall i :: 0 <= i < |ps| ==> ps[i].name.Some? && ps[i].name.value.ttype.Identifier? by {
        forall i | 0 <= i < |ps|
          ensures ps[i].dtype.Some? && NullFree(ps[i].dtype.value)
          ensures ps[i].name.Some? && ps[i].name.value.ttype.Identifier?
        {
          if i < |acc| { assert ps[i] == acc[i]; }
        }
      }
      if toks[p.pos + 1].ttype.Comma? {
        FnParamsNamed(toks, p.pos + 2, ps);
      }
    }
  }

  /** Two parsed types compare equal exactly when they are the same type
      up to parameter names. */
  lemma ParsedTypesCompare(toks: seq<Token>, i: nat, j: nat)
    requires TypeAt(toks, i).POk? && TypeAt(toks, j).POk?
    ensures TypeCompare(Some(TypeAt(toks, i).value), Some(TypeAt(toks, j).value)) <==>
      Erase(TypeAt(toks, i).value) == Erase(TypeAt(toks, j).value)
  {
    TypeNullFree(toks, i);
    TypeNullFree(toks, j);
    CompareIsEquality(TypeAt(toks, i).value, TypeAt(toks, j).value);
  }

  /** The shape and type annotation of every node the expression parser
      builds: numbers are `int`, `true`/`false` are `bool`, identifiers are
      untyped leaves, `!` is a `bool` node over one operand, a binary node
      carries a legal infix operator and is `int` for arithmetic and `bool`
      otherwise, and calls are untyped with every argument of this form. */
  predicate Typed(e: Expression)
  {
    match e
    case FnCallExp(c) =>
      c.dtype.None? && c.scope == -1 && forall i :: 0 <= i < |c.args| ==> Typed(c.args[i])
    case ExpExp(op) =>
      var t := op.token.ttype;
      op.scope == -1 &&
      if t.Number? then op.dtype == Some(Simple(Int)) && op.left.None? && op.right.None?
      else if t.True? || t.False? then op.dtype == Some(Simple(Bool)) && op.left.None? && op.right.None?
      else if t.Identifier? then op.dtype.None? && op.left.None? && op.right.None?
      else if t.Not? then
        op.dtype == Some(Simple(Bool)) && op.left.Some? && op.right.None? && Typed(op.left.value)
      else
        LegalInfix(t) && op.dtype == Some(Simple(InfixType(t))) &&
        op.left.Some? && op.right.Some? && Typed(op.left.value) && Typed(op.right.value)
  }

  lemma {:induction false} PrefixTyped(toks: seq<Token>, pos: nat)
    ensures PrefixAt(toks, pos).POk? ==> Typed(PrefixAt(toks, pos).value)
    decreases Remaining(toks, pos), 2
  {
    if pos < |toks| {
      match toks[pos].ttype
      case Not => PrefixTyped(toks, pos + 1);
      case Identifier =>
        if pos + 1 < |toks| && toks[pos + 1].ttype.LParen? {
          FnCallTyped(toks, pos);
        }
      case LParen => ExpTyped(toks, pos + 1, ParenPrec, RParen);
      case _ =>
    }
  }

  lemma {:induction false} FnCallTyped(toks: seq<Token>, pos: nat)
    ensures FnCallAt(toks, pos).POk? ==> Typed(FnCallExp(FnCallAt(toks, pos).value))
    decreases Remaining(toks, pos), 1
  {
    if pos + 2 < |toks| && !toks[pos + 2].ttype.RParen? {
      CallArgsTyped(toks, pos + 2, [], CallArgsAt(toks, pos + 2, []));
    }
  }

  lemma {:induction false} CallArgsTyped(toks: seq<Token>, pos: nat, acc: seq<Expression>, r: PResult<seq<Expression>>)
    requires forall i :: 0 <= i < |acc| ==> Typed(acc[i])
    requires r == CallArgsAt(toks, pos, acc)
    ensures r.POk? ==> forall i :: 0 <= i < |r.value| ==> Typed(r.value[i])
    decreases Remaining(toks, pos), 4
  {
    var e := ExpAt(toks, pos, ParenPrec, Comma);
    ExpTyped(toks, pos, ParenPrec, Comma);
    if e.POk? {
      var args := acc + [e.value];
      assert forall i :: 0 <= i < |args| ==> Typed(args[i]) by {
        forall i | 0 <= i < |args|
          ensures Typed(args[i])
        {
          if i < |acc| { assert args[i] == acc[i]; }
        }
      }
      if toks[e.pos + 1].ttype.Comma? {
        CallArgsTyped(toks, e.pos + 2, args, r);
      }
    }
  }

  /** Every expression the parser returns has the shape and annotation of
      `Typed`. */
  lemma {:induction false} ExpTyped(toks: seq<Token>, pos: nat, prec: int, end: TokenType)
    requires prec >= EofPrec
    ensures ExpAt(toks, pos, prec, end).POk? ==> Typed(ExpAt(toks, pos, prec, end).value)
    decreases Remaining(toks, pos), 3
  {
    PrefixTyped(toks, pos);
    var left := PrefixAt(toks, pos);
    if left.POk? {
      ExpLoopTyped(toks, left.pos, prec, end, left.value, ExpAt(toks, pos, prec, end));
    }
  }

  lemma {:induction false} ExpLoopTyped(toks: seq<Token>, pos: nat, prec: int, end: TokenType, left: Expression, r: PResult<Expression>)
    requires prec >= EofPrec && Typed(left)
    requires r == ExpLoopAt(toks, pos, prec, end, left)
    ensures r.POk? ==> Typed(r.value)
    decreases Remaining(toks, pos), 1
  {
    if pos + 1 < |toks| {
      var op := toks[pos + 1];
      if !op.ttype.Eof? && op.ttype != end && prec < Prec(op.ttype) && InfixFlag(op.ttype) != 0 {
        ExpTyped(toks, pos + 2, Prec(op.ttype), end);
        var right := ExpAt(toks, pos + 2, Prec(op.ttype), end);
        if right.POk? {
          ExpLoopTyped(toks, right.pos, prec, end, Binary(op, left, right.value), r);
        }
      }
    }
  }

  /** An untyped identifier leaf. */
  function Id(t: Token): Expression
  {
    ExpExp(OpExpressionCreate(t))
  }

  /** Operators of equal precedence group to the left: `a o b p c` parses
      as `(a o b) p c`. */
  lemma LeftAssociative(a: Token, o: Token, b: Token, p: Token, c: Token, semi: Token)
    requires a.ttype.Identifier? && b.ttype.Identifier? && c.ttype.Identifier?
    requires semi.ttype.Semicolon?
    requires LegalInfix(o.ttype) && LegalInfix(p.ttype) && Prec(o.ttype) == Prec(p.ttype)
    ensures ExpAt([a, o, b, p, c, semi], 0, EofPrec, Semicolon) ==
      POk(Binary(p, Binary(o, Id(a), Id(b)), Id(c)), 4)
  {
    var toks := [a, o, b, p, c, semi];
    var ab := Binary(o, Id(a), Id(b));
    assert ExpAt(toks, 4, Prec(p.ttype), Semicolon) == POk(Id(c), 4);
    assert ExpLoopAt(toks, 2, Prec(o.ttype), Semicolon, Id(b)) == POk(Id(b), 2);
    assert ExpAt(toks, 2, Prec(o.ttype), Semicolon) == POk(Id(b), 2);
    assert ExpLoopAt(toks, 4, EofPrec, Semicolon, Binary(p, ab, Id(c))) == POk(Binary(p, ab, Id(c)), 4);
    assert ExpLoopAt(toks, 2, EofPrec, Semicolon, ab) == POk(Binary(p, ab, Id(c)), 4);
    assert ExpLoopAt(toks, 0, EofPrec, Semicolon, Id(a)) == POk(Binary(p, ab, Id(c)), 4);
  }

  /** A tighter operator takes the right operand: with `o` binding less
      tightly than `p`, `a o b p c` parses as `a o (b p c)`. */
  lemma TighterBindsFirst(a: Token, o: Token, b: Token, p: Token, c: Token, semi: Token)
    requires a.ttype.Identifier? && b.ttype.Identifier? && c.ttype.Identifier?
    requires semi.ttype.Semicolon?
    requires LegalInfix(o.ttype) && LegalInfix(p.ttype) && Prec(o.ttype) < Prec(p.ttype)
    ensures ExpAt([a, o, b, p, c, semi], 0, EofPrec, Semicolon) ==
      POk(Binary(o, Id(a), Binary(p, Id(b), Id(c))), 4)
  {
    var toks := [a, o, b, p, c, semi];
    var bc := Binary(p, Id(b), Id(c));
    assert ExpAt(toks, 4, Prec(p.ttype), Semicolon) == POk(Id(c), 4);
    assert ExpLoopAt(toks, 4, Prec(o.ttype), Semicolon, bc) == POk(bc, 4);
    assert ExpLoopAt(toks, 2, Prec(o.ttype), Semicolon, Id(b)) == POk(bc, 4);
    assert ExpAt(toks, 2, Prec(o.ttype), Semicolon) == POk(bc, 4);
    assert ExpLoopAt(toks, 4, EofPrec, Semicolon, Binary(o, Id(a), bc)) == POk(Binary(o, Id(a), bc), 4);
    assert ExpLoopAt(toks, 0, EofPrec, Semicolon, Id(a)) == POk(Binary(o, Id(a), bc), 4);
  }

  /** `!` applies to one prefix term only: `! a o b` is `(!a) o b`. */
  lemma NotBindsPrefix(n: Token, a: Token, o: Token, b: Token, semi: Token)
    requires n.ttype.Not? && a.ttype.Identifier? && b.ttype.Identifier?
    requires semi.ttype.Semicolon? && LegalInfix(o.ttype)
    ensures var notA := ExpExp(OpExpressionCreate(n).(dtype := Some(Simple(Bool)), left := Some(Id(a))));
      ExpAt([n, a, o, b, semi], 0, EofPrec, Semicolon) == POk(Binary(o, notA, Id(b)), 3)
  {
    var toks := [n, a, o, b, semi];
    var notA := ExpExp(OpExpressionCreate(n).(dtype := Some(Simple(Bool)), left := Some(Id(a))));
    assert PrefixAt(toks, 0) == POk(notA, 1);
    assert ExpAt(toks, 3, Prec(o.ttype), Semicolon) == POk(Id(b), 3);
    assert ExpLoopAt(toks, 1, EofPrec, Semicolon, notA) == POk(Binary(o, notA, Id(b)), 3);
  }

  /** An expression running into the end of input is reported at its last
      token. */
  lemma EofEndsExpression(toks: seq<Token>, pos: nat, prec: int, end: TokenType, left: Expression)
    requires pos + 1 < |toks| && toks[pos + 1].ttype.Eof?
    ensures ExpLoopAt(toks, pos, prec, end, left) ==
      PErr(ParseErr(ExpectedEndMark, toks[pos]), pos)
  {
  }

  /** The operator loop stops before `end` and before an operator that does
      not bind tighter than the current precedence, and rejects an operator
      that is not infix. */
  lemma ExpLoopStops(toks: seq<Token>, pos: nat, prec: int, end: TokenType, left: Expression)
    requires prec >= EofPrec
    requires pos + 1 < |toks| && !toks[pos + 1].ttype.Eof?
    ensures (toks[pos + 1].ttype == end || prec >= Prec(toks[pos + 1].ttype)) <==>
      ExpLoopAt(toks, pos, prec, end, left) == POk(left, pos)
    ensures toks[pos + 1].ttype != end && prec < Prec(toks[pos + 1].ttype) && !LegalInfix(toks[pos + 1].ttype) ==>
      ExpLoopAt(toks, pos, prec, end, left) == PErr(ParseErr(InvalidInfix, toks[pos + 1]), pos)
  {
  }

  /** A one-line statement is a call exactly when `(` follows the name. */
  lemma OnelinerCall(toks: seq<Token>, pos: nat, end: TokenType, r: PResult<Oneliner>)
    requires pos + 1 < |toks| && r == OnelinerAt(toks, pos, end)
    ensures r.POk? ==> (r.value.CallOL? <==> toks[pos + 1].ttype.LParen?)
  {
  }

  /** The assignment forms: `x++`/`x--` carry no expression, `:=` and
      `x: T = e` declare, only the second with a type, and a typed
      declaration records `=` as its operator. */
  lemma OnelinerAssignment(toks: seq<Token>, pos: nat, end: TokenType, r: PResult<Oneliner>)
    requires pos + 1 < |toks| && r == OnelinerAt(toks, pos, end)
    requires r.POk? && r.value.AssignmentOL?
    ensures var a := r.value.assignment; var next := toks[pos + 1].ttype;
      a.variable == toks[pos] && a.scope == -1 &&
      (a.exp.None? <==> next.Inc? || next.Dec?) &&
      (a.newVar <==> next.ColEq? || next.Colon?) &&
      (a.dtype.Some? <==> next.Colon?) &&
      (a.op.ttype == if next.Colon? then Eq else next)
  {
  }

  /** Any other operator after the name is rejected. */
  lemma OnelinerRejects(toks: seq<Token>, pos: nat, end: TokenType)
    requires pos + 1 < |toks|
    requires var next := toks[pos + 1].ttype;
      !next.LParen? && !next.Inc? && !next.Dec? && !next.Colon? && !AssignOp(next)
    ensures OnelinerAt(toks, pos, end) == PErr(ParseErr(UnexpectedOperator, toks[pos + 1]), pos)
  {
  }

  /** `if` and `while` both give a `Conditional`, whose token tells them
      apart. */
  lemma IfWhileConditional(toks: seq<Token>, pos: nat)
    requires pos < |toks| && toks[pos].ttype in {If, While}
    ensures var r := StmtAt(toks, pos);
      r.POk? ==> r.value.ConditionalStmt? && r.value.conditional.token == toks[pos]
  {
  }

  /** A block's statements extend the list it was given, and every `{` it
      adds is matched by a `}`. */
  lemma {:induction false} BlockBalanced(toks: seq<Token>, pos: nat, block: bool, acc: seq<Stmt>, r: PResult<seq<Stmt>>)
    requires r == BlockAt(toks, pos, block, acc)
    ensures r.POk? ==> acc <= r.value && Opens(r.value) - Closes(r.value) == Opens(acc) - Closes(acc)
    decreases Remaining(toks, pos)
  {
    if pos < |toks| {
      var token := toks[pos];
      if token.ttype.LBrace? {
        var a1 := acc + [OpenScopeStmt(token)];
        CountsAppend(acc, OpenScopeStmt(token));
        var inner := BlockAt(toks, pos + 1, true, a1);
        BlockBalanced(toks, pos + 1, true, a1, inner);
        if inner.POk? && inner.pos <= |toks| {
          var close := CloseScopeStmt(TokenAddress(toks, inner.pos));
          CountsAppend(inner.value, close);
          BlockBalanced(toks, inner.pos + 1, block, inner.value + [close], r);
        }
      } else if !token.ttype.RBrace? && !token.ttype.Eof? {
        var s := StmtAt(toks, pos);
        if s.POk? {
          CountsAppend(acc, s.value);
          BlockBalanced(toks, s.pos + 1, block, acc + [s.value], r);
        }
      }
    }
  }

  /** A parsed program has as many open-scope as close-scope statements. */
  lemma ProgramBalanced(toks: seq<Token>)
    ensures Parse(toks).POk? ==> Opens(Parse(toks).value) == Closes(Parse(toks).value)
  {
    BlockBalanced(toks, 0, false, [], Parse(toks));
  }

  /** At the top level `}` is an error and the end of input ends the
      program; inside a block it is the other way round. */
  lemma BlockEnds(toks: seq<Token>, pos: nat, acc: seq<Stmt>)
    requires pos < |toks|
    ensures toks[pos].ttype.RBrace? ==>
      BlockAt(toks, pos, false, acc) == PErr(ParseErr(NoScopeToClose, toks[pos]), pos) &&
      BlockAt(toks, pos, true, acc) == POk(acc, pos)
    ensures toks[pos].ttype.Eof? ==>
      BlockAt(toks, pos, true, acc) == PErr(ParseErr(ScopeNotClosed, toks[pos]), pos) &&
      BlockAt(toks, pos, false, acc) == POk(acc, pos)
  {
  }

  /** A brace block is flattened into the enclosing list: `{ break; }` is
      an open-scope, the `break` and a close-scope statement. */
  lemma BlockFlattened(lb: Token, br: Token, semi: Token, rb: Token, eof: Token)
    requires lb.ttype.LBrace? && br.ttype.Break? && semi.ttype.Semicolon?
    requires rb.ttype.RBrace? && eof.ttype.Eof?
    ensures Parse([lb, br, semi, rb, eof]) ==
      POk([OpenScopeStmt(lb), BreakStmt(br), CloseScopeStmt(Some(rb))], 4)
  {
    var toks := [lb, br, semi, rb, eof];
    assert StmtAt(toks, 1) == POk(BreakStmt(br), 2);
    assert [OpenScopeStmt(lb)] + [BreakStmt(br)] == [OpenScopeStmt(lb), BreakStmt(br)];
    assert [OpenScopeStmt(lb), BreakStmt(br)] + [CloseScopeStmt(Some(rb))] == [OpenScopeStmt(lb), BreakStmt(br), CloseScopeStmt(Some(rb))];
    assert BlockAt(toks, 3, true, [OpenScopeStmt(lb), BreakStmt(br)]) == POk([OpenScopeStmt(lb), BreakStmt(br)], 3);
    assert BlockAt(toks, 1, true, [OpenScopeStmt(lb)]) == POk([OpenScopeStmt(lb), BreakStmt(br)], 3);
    assert BlockAt(toks, 4, false, [OpenScopeStmt(lb), BreakStmt(br), CloseScopeStmt(Some(rb))]) ==
      POk([OpenScopeStmt(lb), BreakStmt(br), CloseScopeStmt(Some(rb))], 4);
    assert [] + [OpenScopeStmt(lb)] == [OpenScopeStmt(lb)];
    assert BlockAt(toks, 0, false, []) == POk([OpenScopeStmt(lb), BreakStmt(br), CloseScopeStmt(Some(rb))], 4);
  }

  /** A brace block whose tokens run out before its `}` still parses: its
      close-scope statement holds the address one past the token array,
      and the cursor ends one further on. */
  lemma UnclosedBlockParses(toks: seq<Token>, pos: nat, block: bool, acc: seq<Stmt>, v: seq<Stmt>)
    requires pos < |toks| && toks[pos].ttype.LBrace?
    requires BlockAt(toks, pos + 1, true, acc + [OpenScopeStmt(toks[pos])]) == POk(v, |toks|)
    ensures ItemAt(toks, pos, block, acc) == POk(v + [CloseScopeStmt(None)], |toks| + 1)
  {
  }

  /** A function body whose tokens run out before its `}` still gives the
      definition, with the cursor one past the token array. */
  lemma UnclosedFnBodyParses(toks: seq<Token>, pos: nat, name: Token, fnType: FunctionType, v: seq<Stmt>)
    requires pos + 1 < |toks| && toks[pos + 1].ttype.LBrace?
    requires BlockAt(toks, pos + 2, true, []) == POk(v, |toks|)
    ensures FnBodyAt(toks, pos, name, fnType) == POk(FnStmt(FnDefinitionCreate(name, fnType).(body := v)), |toks|)
  {
  }

  /** `x := 1;` is one assignment statement, with the cursor left on the
      `;`. */
  lemma NumberDeclaration(toks: seq<Token>, p: nat)
    requires p + 3 < |toks| && toks[p].ttype.Identifier? && toks[p + 1].ttype.ColEq?
    requires toks[p + 2].ttype.Number? && toks[p + 3].ttype.Semicolon?
    ensures StmtAt(toks, p).POk? && StmtAt(toks, p).pos == p + 3 && StmtAt(toks, p).value.OnelinerStmt?
  {
    var lit := Literal(Int, toks[p + 2]);
    assert PrefixAt(toks, p + 2) == POk(lit, p + 2);
    assert ExpLoopAt(toks, p + 2, EofPrec, Semicolon, lit) == POk(lit, p + 2);
    var ol := OnelinerAt(toks, p, Semicolon);
    assert ol.POk? && ol.pos == p + 2;
  }

  /** `{x:=1;` whose trailing comment swallowed the end-of-input token
      parses as an open-scope, the assignment and a close-scope statement
      holding the address one past the tokens. */
  lemma UnterminatedBlockProgram(lb: Token, x: Token, ce: Token, n: Token, semi: Token)
    requires lb.ttype.LBrace? && x.ttype.Identifier? && ce.ttype.ColEq?
    requires n.ttype.Number? && semi.ttype.Semicolon?
    ensures var r := Parse([lb, x, ce, n, semi]);
      r.POk? && r.pos == 6 && |r.value| == 3 &&
      r.value[0] == OpenScopeStmt(lb) && r.value[1].OnelinerStmt? && r.value[2] == CloseScopeStmt(None)
  {
    var toks := [lb, x, ce, n, semi];
    NumberDeclaration(toks, 1);
    var st := StmtAt(toks, 1).value;
    assert BlockAt(toks, 5, true, [OpenScopeStmt(lb), st]) == POk([OpenScopeStmt(lb), st], 5);
    assert [] + [OpenScopeStmt(lb)] == [OpenScopeStmt(lb)];
    assert [OpenScopeStmt(lb)] + [st] == [OpenScopeStmt(lb), st];
    assert BlockAt(toks, 1, true, [OpenScopeStmt(lb)]) == POk([OpenScopeStmt(lb), st], 5);
    UnclosedBlockParses(toks, 0, false, [], [OpenScopeStmt(lb), st]);
  }

  /** `fn f() { x := 1;` running to the end of the tokens is a function
      definition that leaves the cursor one past them. */
  lemma UnterminatedFnDef(toks: seq<Token>)
    requires |toks| == 9 && toks[0].ttype.Fn? && toks[1].ttype.Identifier?
    requires toks[2].ttype.LParen? && toks[3].ttype.RParen? && toks[4].ttype.LBrace?
    requires toks[5].ttype.Identifier? && toks[6].ttype.ColEq?
    requires toks[7].ttype.Number? && toks[8].ttype.Semicolon?
    ensures var r := FnAt(toks, 0);
      r.POk? && r.pos == 9 && r.value.FnStmt? && r.value.fnDef.name == toks[1] &&
      |r.value.fnDef.body| == 1 && r.value.fnDef.body[0].OnelinerStmt?
  {
    NumberDeclaration(toks, 5);
    var st := StmtAt(toks, 5).value;
    assert [] + [st] == [st];
    assert BlockAt(toks, 9, true, [st]) == POk([st], 9);
    assert ItemAt(toks, 5, true, []) == POk([st], 9);
    UnclosedFnBodyParses(toks, 3, toks[1], FunctionType([], Some(Simple(Void))), [st]);
  }

  /** `fn f() { x := 1;` whose trailing comment swallowed the end-of-input
      token parses as one function definition holding the assignment. */
  lemma UnterminatedFnProgram(toks: seq<Token>)
    requires |toks| == 9 && toks[0].ttype.Fn? && toks[1].ttype.Identifier?
    requires toks[2].ttype.LParen? && toks[3].ttype.RParen? && toks[4].ttype.LBrace?
    requires toks[5].ttype.Identifier? && toks[6].ttype.ColEq?
    requires toks[7].ttype.Number? && toks[8].ttype.Semicolon?
    ensures var r := Parse(toks);
      r.POk? && r.pos == 10 && |r.value| == 1 && r.value[0].FnStmt? && r.value[0].fnDef.name == toks[1] &&
      |r.value[0].fnDef.body| == 1 && r.value[0].fnDef.body[0].OnelinerStmt?
  {
    UnterminatedFnDef(toks);
    var def := FnAt(toks, 0).value;
    assert StmtAt(toks, 0) == POk(def, 9);
    assert [] + [def] == [def];
    assert BlockAt(toks, 10, false, [def]) == POk([def], 10);
    assert ItemAt(toks, 0, false, []) == POk([def], 10);
  }

  // ---------------------------------------------------------------------
  // The parser state

  /** The returned value, cursor and error a parse function leaves when
      its outcome is `s`. */
  ghost predicate Outcome<T>(s: PResult<T>, r: Option<T>, current: nat, err: Option<ParseErr>)
  {
    match s
    case POk(v, p) => r == Some(v) && current == p && err.None?
    case PErr(e, p) => r.None? && current == p && err == Some(e)
    case PUndef => false
  }

  /** `ParseCache`: the tokens, the cursor and the first error. The two
      tables the driver hands in are fixed to its entries, so they are read
      as `Prec` and `InfixFlag`. Each method moves the cursor as its C
      function does and ends in the state the matching function above
      describes: on success the value and the cursor it gives, on failure
      its error and cursor. */
  class ParseCache {
    const tokens: seq<Token>
    var current: nat
    var err: Option<ParseErr>

    constructor (tokens: seq<Token>)
      ensures this.tokens == tokens && current == 0 && err.None?
    {
      this.tokens := tokens;
      current := 0;
      err := None;
    }

    /** `parse_type`. */
    method ParseType(ghost spec: PResult<GenericType>) returns (r: Option<GenericType>)
      requires err.None? && spec == TypeAt(tokens, current) && !spec.PUndef?
      modifies this
      ensures Outcome(spec, r, current, err)
      decreases Remaining(tokens, current), 1
    {
      var token := tokens[current];
      match token.ttype
      case IntType =>
        return Some(Simple(Int));
      case BoolType =>
        return Some(Simple(Bool));
      case Fn =>
        r := ParseFnType(spec);
      case _ =>
        err := Some(ParseErr(ExpectedType, token));
        return None;
    }

    /** The `fn` case of `parse_type`. */
    method ParseFnType(ghost spec: PResult<GenericType>) returns (r: Option<GenericType>)
      requires err.None? && current < |tokens| && spec == FnTypeAt(tokens, current) && !spec.PUndef?
      modifies this
      ensures Outcome(spec, r, current, err)
      decreases Remaining(tokens, current), 0
    {
      var token := tokens[current];
      if !tokens[current + 1].ttype.LParen? {
        err := Some(ParseErr(ExpectedArgs, token));
        return None;
      }
      current := current + 2;
      var params: seq<FnParam> := [];
      if !tokens[current].ttype.RParen? {
        var ps := TypeParams(TypeParamsAt(tokens, current, []));
        if err.Some? {
          return None;
        }
        params := ps.value;
      }
      if !tokens[current + 1].ttype.Colon? {
        return Some(Complex(FunctionType(params, Some(Simple(Void)))));
      }
      current := current + 2;
      var rt := ParseType(TypeAt(tokens, current));
      if err.Some? {
        return None;
      }
      return Some(Complex(FunctionType(params, rt)));
    }

    /** The parameter-type loop of `parse_type`. */
    method TypeParams(ghost spec: PResult<seq<FnParam>>) returns (r: Option<seq<FnParam>>)
      requires err.None? && spec == TypeParamsAt(tokens, current, []) && !spec.PUndef?
      modifies this
      ensures Outcome(spec, r, current, err)
      decreases Remaining(tokens, current), 2
    {
      ghost var p0 := current;
      var params: seq<FnParam> := [];
      while true
        invariant err.None? && p0 <= current
        invariant TypeParamsAt(tokens, current, params) == spec
        decreases Remaining(tokens, current)
      {
        var t := ParseType(TypeAt(tokens, current));
        if err.Some? {
          return None;
        }
        params := params + [FnParam(None, t)];
        current := current + 1;
        var cur := tokens[current];
        if cur.ttype.RParen? {
          return Some(params);
        }
        if cur.ttype.Comma? {
          current := current + 1;
          continue;
        }
        err := Some(ParseErr(ExpectedCommaOrRightParen, cur));
        return None;
      }
    }

    /** One parameter of `parse_fn_params`. */
    method ParseFnParam(ghost spec: PResult<FnParam>) returns (r: Option<FnParam>)
      requires err.None? && spec == FnParamAt(tokens, current) && !spec.PUndef?
      modifies this
      ensures Outcome(spec, r, current, err)
      decreases Remaining(tokens, current), 2
    {
      var name := tokens[current];
      if !name.ttype.Identifier? {
        err := Some(ParseErr(ExpectedParamName, name));
        return None;
      }
      if !tokens[current + 1].ttype.Colon? {
        err := Some(ParseErr(ExpectedParamType, tokens[current + 1]));
        return None;
      }
      current := current + 2;
      var t := ParseType(TypeAt(tokens, current));
      if err.Some? {
        return None;
      }
      return Some(FnParam(Some(name), t));
    }

    /** `parse_fn_params`. */
    method ParseFnParams(ghost spec: PResult<seq<FnParam>>) returns (r: Option<seq<FnParam>>)
      requires err.None? && spec == FnParamsAt(tokens, current, []) && !spec.PUndef?
      modifies this
      ensures Outcome(spec, r, current, err)
      decreases Remaining(tokens, current), 3
    {
      ghost var p0 := current;
      var params: seq<FnParam> := [];
      while true
        invariant err.None? && p0 <= current
        invariant FnParamsAt(tokens, current, params) == spec
        decreases Remaining(tokens, current)
      {
        var param := ParseFnParam(FnParamAt(tokens, current));
        if err.Some? {
          return None;
        }
        params := params + [param.value];
        current := current + 1;
        if tokens[current].ttype.Comma? {
          current := current + 1;
          continue;
        } else if tokens[current].ttype.RParen? {
          return Some(params);
        } else {
          err := Some(ParseErr(ExpectedCommaOfRightParen, tokens[current + 1]));
          return None;
        }
      }
    }

    /** `parse_fn_call`. */
    method ParseFnCall(ghost spec: PResult<Call>) returns (r: Option<Call>)
      requires err.None? && spec == FnCallAt(tokens, current) && !spec.PUndef?
      modifies this
      ensures Outcome(spec, r, current, err)
      decreases Remaining(tokens, current), 1
    {
      ghost var p0 := current;
      var call := CallCreate(tokens[current]);
      current := current + 2;
      if tokens[current].ttype.RParen? {
        return Some(call);
      }
      ghost var argsSpec := CallArgsAt(tokens, current, []);
      var args: seq<Expression> := [];
      while true
        invariant err.None? && p0 + 2 <= current
        invariant CallArgsAt(tokens, current, args) == argsSpec
        decreases Remaining(tokens, current)
      {
        ghost var es := ExpAt(tokens, current, ParenPrec, Comma);
        var e := ParseExp(ParenPrec, Comma, es);
        if err.Some? {
          return None;
        }
        args := args + [e.value];
        var next := tokens[current + 1];
        if next.ttype.Comma? {
          current := current + 2;
          continue;
        } else if next.ttype.RParen? {
          current := current + 1;
          return Some(call.(args := args));
        } else {
          err := Some(ParseErr(ExpectedCommaOrRightParen, next));
          return None;
        }
      }
    }

    /** `parse_prefix`. */
    method ParsePrefix(ghost spec: PResult<Expression>) returns (r: Option<Expression>)
      requires err.None? && spec == PrefixAt(tokens, current) && !spec.PUndef?
      modifies this
      ensures Outcome(spec, r, current, err)
      decreases Remaining(tokens, current), 2
    {
      var token := tokens[current];
      match token.ttype
      case Number =>
        return Some(Literal(Int, token));
      case True =>
        return Some(Literal(Bool, token));
      case False =>
        return Some(Literal(Bool, token));
      case Not =>
        current := current + 1;
        var sub := ParsePrefix(PrefixAt(tokens, current));
        if err.Some? {
          return None;
        }
        return Some(ExpExp(OpExpressionCreate(token).(dtype := Some(Simple(Bool)), left := sub)));
      case Identifier =>
        if !tokens[current + 1].ttype.LParen? {
          return Some(ExpExp(OpExpressionCreate(token)));
        }
        var call := ParseFnCall(FnCallAt(tokens, current));
        // `cur_t` only takes the address of the token under the cursor, at
        // most one past the token array
        var cur := TokenAddress(tokens, current);
        if err.Some? {
          return None;
        }
        return Some(FnCallExp(call.value));
      case LParen =>
        current := current + 1;
        var e := ParseExp(ParenPrec, RParen, ExpAt(tokens, current, ParenPrec, RParen));
        if err.Some? {
          return None;
        }
        current := current + 1;
        return e;
      case _ =>
        err := Some(ParseErr(UnexpectedPrefix, token));
        return None;
    }

    /** `parse_exp`: a prefix, then the operator loop. */
    method ParseExp(prec: int, end: TokenType, ghost spec: PResult<Expression>) returns (r: Option<Expression>)
      requires err.None? && spec == ExpAt(tokens, current, prec, end) && !spec.PUndef?
      modifies this
      ensures Outcome(spec, r, current, err)
      decreases Remaining(tokens, current), 3
    {
      var left := ParsePrefix(PrefixAt(tokens, current));
      if err.Some? {
        return None;
      }
      r := ExpLoop(prec, end, left.value, spec);
    }

    /** The operator loop of `parse_exp`, with `left` parsed up to the
        cursor. */
    method ExpLoop(prec: int, end: TokenType, left: Expression, ghost spec: PResult<Expression>) returns (r: Option<Expression>)
      requires err.None? && spec == ExpLoopAt(tokens, current, prec, end, left) && !spec.PUndef?
      modifies this
      ensures Outcome(spec, r, current, err)
      decreases Remaining(tokens, current), 1
    {
      ghost var p0 := current;
      var acc := left;
      while true
        invariant err.None? && p0 <= current
        invariant ExpLoopAt(tokens, current, prec, end, acc) == spec
        decreases Remaining(tokens, current)
      {
        var op := tokens[current + 1];
        if op.ttype.Eof? {
          err := Some(ParseErr(ExpectedEndMark, tokens[current]));
          return None;
        }
        var opPrec, infix := Prec(op.ttype), InfixFlag(op.ttype);
        if op.ttype == end || prec >= opPrec {
          break;
        }
        if infix == 0 {
          err := Some(ParseErr(InvalidInfix, op));
          return None;
        }
        ghost var rs := ExpAt(tokens, current + 2, opPrec, end);
        current := current + 2;
        var right := ParseExp(opPrec, end, rs);
        if err.Some? {
          return None;
        }
        acc := Binary(op, acc, right.value);
      }
      return Some(acc);
    }
 
    /** `parse_oneliner`. */
    method ParseOneliner(end: TokenType, ghost spec: PResult<Oneliner>) returns (r: Option<Oneliner>)
      requires err.None? && spec == OnelinerAt(tokens, current, end) && !spec.PUndef?
      modifies this
      ensures Outcome(spec, r, current, err)
      decreases Remaining(tokens, current), 5
    {
      var name := tokens[current];
      var next := tokens[current + 1];
      if next.ttype.LParen? {
        var call := ParseFnCall(FnCallAt(tokens, current));
        if err.Some? {
          return None;
        }
        return Some(CallOL(call.value));
      }
      var ass := AssignmentCreate(name, next);
      if next.ttype.Inc? || next.ttype.Dec? {
        current := current + 1;
        return Some(AssignmentOL(ass));
      } else if AssignOp(next.ttype) {
        ass := ass.(newVar := next.ttype.ColEq?);
        current := current + 2;
        r := ParseAssigned(end, ass, spec);
      } else if next.ttype.Colon? {
        ass := ass.(newVar := true);
        current := current + 2;
        var t := ParseType(TypeAt(tokens, current));
        if err.Some? {
          return None;
        }
        ass := ass.(dtype := t);
        next := tokens[current + 1];
        if !next.ttype.Eq? {
          err := Some(ParseErr(ExpectedAssign, next));
          return None;
        }
        ass := ass.(op := next);
        current := current + 2;
        r := ParseAssigned(end, ass, spec);
      } else {
        err := Some(ParseErr(UnexpectedOperator, next));
        return None;
      }
    }

    /** The expression of an assignment, from the token after its operator. */
    method ParseAssigned(end: TokenType, ass: Assignment, ghost spec: PResult<Oneliner>) returns (r: Option<Oneliner>)
      requires err.None? && spec == AssignedAt(tokens, current, end, ass) && !spec.PUndef?
      modifies this
      ensures Outcome(spec, r, current, err)
      decreases Remaining(tokens, current), 4
    {
      var e := ParseExp(EofPrec, end, ExpAt(tokens, current, EofPrec, end));
      if err.Some? {
        return None;
      }
      return Some(AssignmentOL(ass.(exp := e)));
    }

    /** The `break` and `continue` cases of `parse`. */
    method ParseJump(ghost spec: PResult<Stmt>) returns (r: Option<Stmt>)
      requires err.None? && current < |tokens| && spec == JumpAt(tokens, current) && !spec.PUndef?
      modifies this
      ensures Outcome(spec, r, current, err)
    {
      var token := tokens[current];
      if !tokens[current + 1].ttype.Semicolon? {
        err := Some(ParseErr(ExpectedSemicolon, token));
        return None;
      }
      current := current + 1;
      return Some(if token.ttype.Break? then BreakStmt(token) else ContinueStmt(token));
    }

    /** The `return` case of `parse`. */
    method ParseReturn(ghost spec: PResult<Stmt>) returns (r: Option<Stmt>)
      requires err.None? && current < |tokens| && spec == ReturnAt(tokens, current) && !spec.PUndef?
      modifies this
      ensures Outcome(spec, r, current, err)
      decreases Remaining(tokens, current), 5
    {
      var token := tokens[current];
      current := current + 1;
      var exp: Option<Expression> := None;
      if !tokens[current].ttype.Semicolon? {
        exp := ParseExp(EofPrec, Semicolon, ExpAt(tokens, current, EofPrec, Semicolon));
        if err.Some? {
          return None;
        }
        current := current + 1;
      }
      var last := tokens[current];
      if !last.ttype.Semicolon? {
        err := Some(ParseErr(ExpectedSemicolon, last));
        return None;
      }
      return Some(ReturnStmt(token, exp));
    }

    /** The identifier case of `parse`: a oneliner and its `;`. */
    method ParseSimple(ghost spec: PResult<Stmt>) returns (r: Option<Stmt>)
      requires err.None? && current < |tokens| && spec == SimpleAt(tokens, current) && !spec.PUndef?
      modifies this
      ensures Outcome(spec, r, current, err)
      decreases Remaining(tokens, current), 5
    {
      var token := tokens[current];
      var ol := ParseOneliner(Semicolon, OnelinerAt(tokens, current, Semicolon));
      if err.Some? {
        return None;
      }
      current := current + 1;
      if !tokens[current].ttype.Semicolon? {
        err := Some(ParseErr(ExpectedSemicolon, token));
        return None;
      }
      return Some(OnelinerStmt(ol.value));
    }

    /** The `if` and `while` case of `parse`. */
    method ParseConditional(ghost spec: PResult<Stmt>) returns (r: Option<Stmt>)
      requires err.None? && current < |tokens| && spec == ConditionalAt(tokens, current) && !spec.PUndef?
      modifies this
      ensures Outcome(spec, r, current, err)
      decreases Remaining(tokens, current), 5
    {
      var token := tokens[current];
      current := current + 1;
      var cond := ParseExp(EofPrec, LBrace, ExpAt(tokens, current, EofPrec, LBrace));
      if err.Some? {
        return None;
      }
      r := ParseThen(token, cond.value, spec);
    }

    /** The blocks of a conditional, from the token before its `{`. */
    method ParseThen(token: Token, cond: Expression, ghost spec: PResult<Stmt>) returns (r: Option<Stmt>)
      requires err.None? && spec == ThenAt(tokens, current, token, cond) && !spec.PUndef?
      modifies this
      ensures Outcome(spec, r, current, err)
      decreases Remaining(tokens, current), 5
    {
      if !tokens[current + 1].ttype.LBrace? {
        err := Some(ParseErr(NoConditionalBlock, token));
        return None;
      }
      current := current + 2;
      var thenBlock := Parse(true, [], BlockAt(tokens, current, true, []));
      if err.Some? {
        return None;
      }
      r := ParseElse(token, cond, thenBlock.value, spec);
    }

    /** The optional `else` block, from the then-block's `}`. */
    method ParseElse(token: Token, cond: Expression, thenBlock: seq<Stmt>, ghost spec: PResult<Stmt>) returns (r: Option<Stmt>)
      requires err.None? && spec == ElseAt(tokens, current, token, cond, thenBlock) && !spec.PUndef?
      modifies this
      ensures Outcome(spec, r, current, err)
      decreases Remaining(tokens, current), 5
    {
      if !tokens[current + 1].ttype.Else? {
        return Some(ConditionalStmt(ConditionalCreate(token, cond).(thenBlock := thenBlock)));
      }
      if !tokens[current + 2].ttype.LBrace? {
        err := Some(ParseErr(NoElseBlock, tokens[current]));
        return None;
      }
      current := current + 3;
      var elseBlock := Parse(true, [], BlockAt(tokens, current, true, []));
      if err.Some? {
        return None;
      }
      return Some(ConditionalStmt(Conditional(token, cond, thenBlock, elseBlock.value)));
    }

    /** The `for` case of `parse`. */
    method ParseFor(ghost spec: PResult<Stmt>) returns (r: Option<Stmt>)
      requires err.None? && current < |tokens| && spec == ForAt(tokens, current) && !spec.PUndef?
      modifies this
      ensures Outcome(spec, r, current, err)
      decreases Remaining(tokens, current), 5
    {
      var token := tokens[current];
      current := current + 1;
      var init := ParseOneliner(Semicolon, OnelinerAt(tokens, current, Semicolon));
      if err.Some? {
        return None;
      }
      if !tokens[current + 1].ttype.Semicolon? {
        err := Some(ParseErr(ExpectedSemicolonAfterInit, tokens[current]));
        return None;
      }
      assert ForAt(tokens, old(current)) == ForConditionAt(tokens, current + 2, token, init.value);
      current := current + 2;
      r := ParseForCondition(token, init.value, spec);
    }

    /** The `for` header from its condition on. */
    method ParseForCondition(token: Token, init: Oneliner, ghost spec: PResult<Stmt>) returns (r: Option<Stmt>)
      requires err.None? && spec == ForConditionAt(tokens, current, token, init) && !spec.PUndef?
      modifies this
      ensures Outcome(spec, r, current, err)
      decreases Remaining(tokens, current), 5
    {
      var cond := ParseExp(EofPrec, Semicolon, ExpAt(tokens, current, EofPrec, Semicolon));
      if err.Some? {
        return None;
      }
      if !tokens[current + 1].ttype.Semicolon? {
        err := Some(ParseErr(ExpectedSemicolonAfterCondition, tokens[current]));
        return None;
      }
      assert ForConditionAt(tokens, old(current), token, init) == ForAfterAt(tokens, current + 2, token, init, cond.value);
      current := current + 2;
      r := ParseForAfter(token, init, cond.value, spec);
    }

    /** The `for` statement from its after-statement on. */
    method ParseForAfter(token: Token, init: Oneliner, cond: Expression, ghost spec: PResult<Stmt>) returns (r: Option<Stmt>)
      requires err.None? && spec == ForAfterAt(tokens, current, token, init, cond) && !spec.PUndef?
      modifies this
      ensures Outcome(spec, r, current, err)
      decreases Remaining(tokens, current), 5
    {
      var after := ParseOneliner(Semicolon, OnelinerAt(tokens, current, Semicolon));
      if err.Some? {
        return None;
      }
      if !tokens[current + 1].ttype.LBrace? {
        err := Some(ParseErr(ExpectedSemicolonAfterAfter, tokens[current]));
        return None;
      }
      current := current + 2;
      var body := Parse(true, [], BlockAt(tokens, current, true, []));
      if err.Some? {
        return None;
      }
      var forLoop := ForLoopCreate(token, init, cond, after.value);
      return Some(ForStmt(forLoop.(body := body.value)));
    }

    /** The `fn` case of `parse`. */
    method ParseFn(ghost spec: PResult<Stmt>) returns (r: Option<Stmt>)
      requires err.None? && current < |tokens| && spec == FnAt(tokens, current) && !spec.PUndef?
      modifies this
      ensures Outcome(spec, r, current, err)
      decreases Remaining(tokens, current), 5
    {
      var name := tokens[current + 1];
      if !name.ttype.Identifier? {
        err := Some(ParseErr(ExpectedFnName, name));
        return None;
      }
      if !tokens[current + 2].ttype.LParen? {
        err := Some(ParseErr(ExpectedFnParams, tokens[current + 2]));
        return None;
      }
      current := current + 3;
      var params: seq<FnParam> := [];
      if !tokens[current].ttype.RParen? {
        var ps := ParseFnParams(FnParamsAt(tokens, current, []));
        if err.Some? {
          return None;
        }
        params := ps.value;
      }
      r := ParseFnReturn(name, params, spec);
    }

    /** The `fn` case after the parameter list. */
    method ParseFnReturn(name: Token, params: seq<FnParam>, ghost spec: PResult<Stmt>) returns (r: Option<Stmt>)
      requires err.None? && spec == FnReturnAt(tokens, current, name, params) && !spec.PUndef?
      modifies this
      ensures Outcome(spec, r, current, err)
      decreases Remaining(tokens, current), 5
    {
      var returnType: GenericType := Simple(Void);
      if tokens[current + 1].ttype.Colon? {
        current := current + 2;
        var rt := ParseType(TypeAt(tokens, current));
        if err.Some? {
          return None;
        }
        returnType := rt.value;
      }
      r := ParseFnBody(name, FunctionType(params, Some(returnType)), spec);
    }

    /** The `fn` case from the body on. */
    method ParseFnBody(name: Token, fnType: FunctionType, ghost spec: PResult<Stmt>) returns (r: Option<Stmt>)
      requires err.None? && spec == FnBodyAt(tokens, current, name, fnType) && !spec.PUndef?
      modifies this
      ensures Outcome(spec, r, current, err)
      decreases Remaining(tokens, current), 4
    {
      if !tokens[current + 1].ttype.LBrace? {
        err := Some(ParseErr(ExpectedFnBody, tokens[current]));
        return None;
      }
      current := current + 2;
      var body := Parse(true, [], BlockAt(tokens, current, true, []));
      if err.Some? {
        return None;
      }
      // `last` only takes the address of the token under the cursor
      return Some(FnStmt(FnDefinitionCreate(name, fnType).(body := body.value)));
    }

    /** One statement of `parse`'s switch other than the braces and the end
        of input. */
    method ParseStatement(ghost spec: PResult<Stmt>) returns (r: Option<Stmt>)
      requires err.None? && current < |tokens| && spec == StmtAt(tokens, current) && !spec.PUndef?
      modifies this
      ensures Outcome(spec, r, current, err)
      decreases Remaining(tokens, current), 6
    {
      var token := tokens[current];
      match token.ttype
      case Break =>
        r := ParseJump(spec);
      case Continue =>
        r := ParseJump(spec);
      case Return =>
        r := ParseReturn(spec);
      case Identifier =>
        r := ParseSimple(spec);
      case If =>
        r := ParseConditional(spec);
      case While =>
        r := ParseConditional(spec);
      case For =>
        r := ParseFor(spec);
      case Fn =>
        r := ParseFn(spec);
      case _ =>
        err := Some(ParseErr(UnexpectedToken, token));
        r := None;
    }

    /** `parse`: statements are appended to `stmts` until the tokens run
        out, or until `}` or the end of input ends the block. */
    method Parse(block: bool, stmts: seq<Stmt>, ghost spec: PResult<seq<Stmt>>) returns (r: Option<seq<Stmt>>)
      requires err.None? && spec == BlockAt(tokens, current, block, stmts) && !spec.PUndef?
      modifies this
      ensures Outcome(spec, r, current, err)
      decreases Remaining(tokens, current), 8
    {
      ghost var p0 := current;
      var acc := stmts;
      while current < |tokens|
        invariant err.None? && p0 <= current
        invariant BlockAt(tokens, current, block, acc) == spec
        decreases Remaining(tokens, current)
      {
        var token := tokens[current];
        if token.ttype.LBrace? {
          current := current + 1;
          var inner := Parse(true, acc + [OpenScopeStmt(token)], BlockAt(tokens, current, true, acc + [OpenScopeStmt(token)]));
          if err.Some? {
            return None;
          }
          acc := inner.value + [CloseScopeStmt(TokenAddress(tokens, current))];
          current := current + 1;
          continue;
        }
        if token.ttype.RBrace? {
          if !block {
            err := Some(ParseErr(NoScopeToClose, token));
            return None;
          }
          return Some(acc);
        }
        if token.ttype.Eof? {
          if block {
            err := Some(ParseErr(ScopeNotClosed, token));
            return None;
          }
          return Some(acc);
        }
        var s := ParseStatement(StmtAt(tokens, current));
        if err.Some? {
          return None;
        }
        current := current + 1;
        acc := acc + [s.value];
      }
      return Some(acc);
    }
  }
}
