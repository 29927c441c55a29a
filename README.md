# cimpl toolchain core in Dafny

This project models the core of `cimpl`, a small C-like language implemented in C. The source text passes through these stages:

- the lexer (`tokenize`) turns it into tokens;
- the recursive-descent parser (`parse`) builds a statement list;
- the semantic analyzer (`validate`) type-checks the list against a stack of scope hash tables and collects errors;
- the bytecode compiler (`compile_to_bytecode`) lowers assignments and scopes to a stack-machine program;
- the virtual machine (`vm_run`) executes that program.

The token tables, the keyword binary tree, the syntax tree with its type comparison, and the two string helpers are modelled too.

There is one module per C file:

| module | file | flavour |
|---|---|---|
| `Utils` | `utils.dfy` | `substring`, `min` |
| `Tokens` | `token.dfy` | kinds and tables; the `LexMap` class |
| `Ast` | `ast.dfy` | values only |
| `Lexer` | `lexer.dfy` | the imperative scanning loop |
| `Parser` | `parser.dfy` | reference functions, plus the `ParseCache` class |
| `Analyzer` | `analyzer.dfy` | the `HashTable` and `AnalysisCache` classes |
| `Bytecode` | `bytecode.dfy` | opcodes, `atoi` |
| `Compiler` | `compiler.dfy` | the `Emitter` class |
| `Vm` | `vm.dfy` | the `Machine` class over arrays |

Every imperative part is written twice:

- A *reference function* says what the C code computes. Examples are `Lex`, `TypeAt`/`ExpAt`/`BlockAt`, `ExpR`/`BlockR`, `CompileProgram` and `Step`/`Exec`.
- A *class or method* does it step by step, as the C code does, and is proved to end in exactly the state the reference function gives.

Lemmas then state what the system promises about the reference functions:

- **Lexer:** tokens are in source order and never overlap, every token's text fits its kind, and line numbers are right.
- **Parser:**
  - parsed types have no NULL in them;
  - binary operators of equal precedence group to the left;
  - a tighter operator takes the right operand;
  - every parsed program has as many open-scope as close-scope statements.
- **Analyzer:** the hash table has get-after-set laws; a scoped lookup finds the innermost binding; `:=` redefinitions and duplicate parameters are reported; every `break` and `continue` outside all loops is reported and none inside one (conditionals keep the loop depth, `for` bodies raise it); the scope count stays balanced.
- **Compiler:** each expression compiles to post-order code that leaves exactly one value on the stack, and a lowered program has balanced scope opcodes.
- **VM:** a pop after a push returns the pushed value, C's truncating `/` and `%` are modelled, and jump-free programs terminate.

C undefined behaviour is an explicit outcome:

- a NULL dereference;
- an index outside a buffer;
- a signed overflow;
- a division by zero;
- a read of a token outside the token array, or an address more than one past its end (section 6.5.6 of the C11 standard). The address one past the end may be formed and kept, and is modelled as `None`.

The reference functions return `Undef`/`PUndef`/`Fault`/`None` for these. A method requires that the outcome is defined.

Some of the code's behaviour is followed as written, where the natural reading would differ:

- **`:=` redefinition.** `:=` of a name the innermost scope already binds is reported as a ReferenceError. The plain reading of the language would treat it as silent; the code at include/analyzer.c:287-289 reports it.
- **A comment on the last line.** When the last line ends in a comment without a trailing newline, that comment swallows the end-of-file character, so no `Eof` token is produced (`Lexer.TrailingCommentSwallowsEof`).
- **`!=` in the VM.** The shared equality case computes `l == r && command == IntEqCode`, so `IntNotEqCode` always yields 0 (`Vm.NotEqAlwaysZero`).
- **Scope records in the VM.** `vm_set_scope_start` reallocates the scope buffer to `capacity` *bytes*, not `capacity` ints. So the first growth already writes past the buffer, and the 33rd nested scope start is undefined (`Vm.ScopePushDefined`, `Vm.ThirtyThirdScopeFaults`).
- **`++` and `--` in the compiler.** `compile_to_bytecode` compiles an assignment's expression before its operator switch. For `x++` and `x--` that expression is NULL, so their lowering is undefined behaviour and the model gives `Fault`.

## Model

| member | source | states |
|---|---|---|
| Utils.CharCodeInjective | include/utils.c:10-12 | two characters have the same C `char` code exactly when they are equal, so copying codes loses nothing |
| Utils.Substring | include/utils.c:4-15 | NULL exactly when `start == end`; otherwise a buffer of `end - start + 1` characters holding `s[start..end]` followed by a NUL |
| Utils.Min | include/utils.c:17-22 | the result is at most both arguments and is one of them |
| Tokens.Ord | include/token.h:7-74 | every kind has an enum value below the number of kinds, the size of the per-kind tables |
| Tokens.KindOfOrd | include/token.h:7-74 | the enum value determines the kind (`KindOf` inverts `Ord`) |
| Tokens.OrdInjective | include/token.h:7-74 | different kinds have different enum values, so they never share a table slot |
| Tokens.Compare | include/token.c:7-26 | the result of `lm_cmp` is always -1, 0 or 1 |
| Tokens.LmCmp | include/token.c:7-26 | the character loop up to the shorter length, then the length test, computes lexicographic order on signed codes |
| Tokens.CompareZeroIff | include/token.c:7-26 | `lm_cmp` returns 0 exactly for equal strings |
| Tokens.CompareAntisymmetric | include/token.c:7-26 | swapping the arguments negates the result |
| Tokens.ComparePrefix | include/token.c:19-21 | a proper prefix compares smaller than the longer string |
| Tokens.InsertKeys | include/token.c:28-64 | insertion adds exactly the inserted key to the tree's key set |
| Tokens.InsertKeepsOrder | include/token.c:34-62 | insertion keeps the binary-search-tree ordering under `lm_cmp` |
| Tokens.GetAfterInsert | include/token.c:28-79 | after inserting a key, `lm_get` of that key returns the inserted kind |
| Tokens.GetOtherAfterInsert | include/token.c:28-79 | inserting a key into an ordered tree leaves the lookup of every other key unchanged |
| Tokens.GetAbsent | include/token.c:66-79 | in an ordered tree a key that is not present is looked up as Illegal |
| Tokens.ReinsertKeepsShape | include/token.c:60-62 | re-inserting a present key only overwrites its kind: no node is added |
| Tokens.LexMap.constructor | include/lexer.c:48 | an empty root with a NULL key, abstracted as the empty tree |
| Tokens.LexMap.Single | include/token.c:36-59 | a freshly allocated node holds just the new key and kind |
| Tokens.LexMap.Insert | include/token.c:28-64 | `lm_insert` in place turns the node's tree into `TreeInsert` of the old tree; new nodes are fresh |
| Tokens.LexMap.Overwrite | include/token.c:60-62 | the equal-key branch replaces the kind in place |
| Tokens.LexMap.InsertRight | include/token.c:36-47 | the greater-key branch inserts into the right subtree (allocating it when NULL) and leaves the rest |
| Tokens.LexMap.InsertLeft | include/token.c:48-59 | the smaller-key branch inserts into the left subtree (allocating it when NULL) and leaves the rest |
| Tokens.LexMap.Get | include/token.c:66-79 | `lm_get` walking the nodes returns the abstract tree's lookup |
| Tokens.TTTable.constructor | include/token.c:86-89 | a fresh preview table with every slot NULL |
| Tokens.TTTable.Set | include/token.c:101-108 | after `tt_ht_set` the slot of `t` reads back the stored text and no other slot changes |
| Tokens.TTIntTable.constructor | include/token.c:96-99 | the initialiser `{-1}` makes Illegal's slot -1 and every other slot 0 |
| Tokens.TTIntTable.Set | include/token.c:143-149 | after `tt_int_ht_set` the slot of `t` reads back `v` and no other slot changes |
| Tokens.ChTable.constructor | include/token.c:91-94 | every character's slot is Illegal |
| Tokens.ChTable.Set | include/token.c:126-130 | `ch_ht_set` writes only the slot of the character's code |
| Tokens.LexTable.constructor | include/token.c:81-84 | every slot is Illegal |
| Tokens.LexTable.Set | include/token.c:110-124 | the lexeme reads back the stored kind, and slots of other hashes are unchanged (lexemes with equal hashes do collide) |
| Tokens.TokenView | include/token.c:132-141 | a Number or Identifier shows its source text (NULL for an empty extent); any other kind shows its preview entry |
| Ast.FunctionTypeCreate | include/ast.c:12-18 | no parameters and a NULL return type |
| Ast.OpExpressionCreate | include/ast.c:20-27 | the node has no type and no children, and its scope starts at -1; it holds the token its caller writes straight after creating it (include/parser.c:235) |
| Ast.CallCreate | include/ast.c:29-37 | no arguments, a NULL type and scope -1 |
| Ast.AssignmentCreate | include/ast.c:44-53 | not a declaration, with no expression, no type and scope -1 |
| Ast.FnParamCreate | include/ast.c:55-60 | NULL name and type |
| Ast.FnDefinitionCreate | include/ast.c:62-69 | the given name and type with an empty body |
| Ast.ForLoopCreate | include/ast.c:76-85 | an empty body with the given header |
| Ast.ConditionalCreate | include/ast.c:87-96 | empty then and else blocks |
| Ast.ReturnCreate | include/ast.c:110-115 | a return statement without an expression |
| Ast.CountsAppend | include/parser.c:402-418 | appending a statement adds one to the open count for `{` and one to the close count for `}` |
| Ast.CompareNullMatches | include/ast.c:134-137 | a NULL argument compares equal to anything |
| Ast.CompareTagsDiffer | include/ast.c:138-140 | a Simple type never equals a Complex one |
| Ast.CompareSimple | include/ast.c:142-143 | two Simple types are equal exactly when they name the same primitive |
| Ast.CompareComplex | include/ast.c:144-156 | two function types are equal exactly when their return types and every parameter type compare equal pairwise, with equal arity |
| Ast.CompareReflexive | include/ast.c:134-158 | every type compares equal to itself |
| Ast.CompareSymmetric | include/ast.c:134-158 | the comparison does not depend on argument order |
| Ast.CompareNotTransitive | include/ast.c:134-137 | because NULL is a wildcard, the comparison is not transitive |
| Ast.CompareIsEquality | include/ast.c:134-158 | on NULL-free types the comparison is structural equality once parameter names are ignored |
| Lexer.KeywordGroupsDisjoint | include/lexer.c:49-60 | no reserved word has two kinds |
| Lexer.DigitRunEnd | include/lexer.c:140-147 | the number scan stops at the first non-digit, and everything before it is a digit |
| Lexer.IdentRunEnd | include/lexer.c:148-151 | the word scan stops at the first character that is not a letter, digit or `_` |
| Lexer.CommentEnd | include/lexer.c:83-87 | a comment runs to the next newline, which stays unconsumed, or to the end of the buffer |
| Lexer.StepAt | include/lexer.c:67-169 | each pass of the loop advances `start` and stays inside the buffer |
| Lexer.LexFromStep | include/lexer.c:67-169 | the scan from a position is that position's token followed by the scan from where the pass stops |
| Lexer.SingleCharsSlotsAgree | include/lexer.c:12-18 | after the `singlechars` calls each slot holds the kind of its punctuation character |
| Lexer.MakeSingleChars | include/lexer.c:12-18 | the built table maps `, ; { } ( )` to their kinds and everything else to Illegal |
| Lexer.OperatorsSlotsAgree | include/lexer.c:20-30 | after the `operators` calls each slot holds the kind of its operator character |
| Lexer.MakeOperators | include/lexer.c:20-30 | the built table maps the ten operator characters to their kinds |
| Lexer.EqModifiersSlotsAgree | include/lexer.c:32-42 | after the `eq_modifiers` calls each slot holds the kind of its `c=` token |
| Lexer.MakeEqModifiers | include/lexer.c:32-42 | the built table maps each operator character to its `c=` kind |
| Lexer.SelfModifiersSlotsAgree | include/lexer.c:44-46 | after the `self_modifiers` calls only `+` and `-` have kinds |
| Lexer.MakeSelfModifiers | include/lexer.c:44-46 | the built table maps `+` to Inc and `-` to Dec |
| Lexer.TreeGetInsert | include/token.c:28-79 | after an insertion the new key reads its kind and every other key reads what it read before |
| Lexer.InsertPair | include/lexer.c:49-60 | after two consecutive `lm_insert` calls the two words read their kinds (the later one winning), every other word reads as before, and the map stays a valid search tree |
| Lexer.InsertControlWords | include/lexer.c:49-52 | after inserting `if else for while`, those words read their kinds and the others are unchanged |
| Lexer.InsertFlowWords | include/lexer.c:53-56 | after inserting `break continue fn return`, those words read their kinds and the others are unchanged |
| Lexer.InsertValueWords | include/lexer.c:57-60 | after inserting `int bool true false`, those words read their kinds and the others are unchanged |
| Lexer.MakeKeywords | include/lexer.c:48-60 | the built keyword tree maps the twelve reserved words to their kinds and every other word to Illegal |
| Lexer.MakeTables | include/lexer.c:12-60 | the four tables and the keyword tree hold exactly the reference classification |
| Lexer.ScanOperator | include/lexer.c:113-133 | the operator branch gives `c=`, then a doubled self-modifier, then the single operator, exactly as the reference step does |
| Lexer.ScanRun | include/lexer.c:140-160 | a digit run is a Number; a word run is its keyword kind when reserved, otherwise an Identifier |
| Lexer.ScanStep | include/lexer.c:68-168 | one pass of the loop computes the reference step |
| Lexer.Tokenize | include/lexer.c:9-171 | the imperative scan returns exactly the reference token list |
| Lexer.StepExtent | include/lexer.c:68-165 | a step's token starts where the step starts and ends where the scan resumes |
| Lexer.LexFromInOrder | include/lexer.c:67-169 | the tokens from a position on are non-empty, in source order and do not overlap |
| Lexer.LexInOrder | include/lexer.c:9-171 | the tokens of a whole source are non-empty, in source order and do not overlap |
| Lexer.LineStartOf | include/lexer.c:78-82 | the line start of a position is at or before it |
| Lexer.NoNewlineRun | include/lexer.c:83-87 | skipping characters that are not newlines keeps the line number and line start |
| Lexer.StepLines | include/lexer.c:75-82 | a pass keeps the line counter equal to one plus the number of newlines seen, and the line start just after the last one |
| Lexer.LexFromLines | include/lexer.c:70-72 | every token from a position on records its true line number and line start |
| Lexer.LexLines | include/lexer.c:9-171 | every token of the source records its true line number and line start |
| Lexer.OperatorSpelling | include/lexer.c:20-46 | operator kinds spell `c`, `c=` and `cc` |
| Lexer.SingleCharSpelling | include/lexer.c:12-18 | punctuation kinds spell their character |
| Lexer.KeywordKinds | include/lexer.c:152-157 | the keyword tree yields Illegal or one of the twelve keyword kinds |
| Lexer.FixedFits | include/lexer.c:165 | a fixed-spelling token fits when its text is its spelling |
| Lexer.OperatorFits | include/lexer.c:88-133 | operator and `||`/`&&` tokens fit their text |
| Lexer.RunFits | include/lexer.c:140-160 | number, identifier and keyword tokens fit their text |
| Lexer.StepFits | include/lexer.c:68-165 | the token of every pass fits its text |
| Lexer.LexFromFits | include/lexer.c:67-169 | every token from a position on lies inside the source and fits its text |
| Lexer.LexFits | include/lexer.c:9-171 | every token lies inside the source and its text is what its kind says: its spelling, a digit run, an identifier that is not reserved, the reserved word itself, or a lone Illegal character |
| Lexer.CommentSkipped | include/lexer.c:83-87 | a comment produces no token: the scan resumes at the newline |
| Lexer.LineStartAfterNewline | include/lexer.c:78-82 | a positive line start follows a newline, and no newline lies between it and the position |
| Lexer.StepBeforeEnd | include/lexer.c:67-169 | unless a comment runs to the end, no pass skips over the final EOF character |
| Lexer.LexFromEndsWithEof | include/lexer.c:108-111 | without a comment on the last line, the scan ends with the Eof token at the final character |
| Lexer.LexEndsWithEof | include/lexer.c:108-111 | a source without a trailing comment lexes to a list ending with Eof at offset `size - 1` |
| Lexer.TrailingCommentSwallowsEof | include/lexer.c:83-87 | `1 #c` followed by EOF lexes to the single Number token: the comment swallows the EOF character |
| Parser.Fail | include/parser.c:40-42 | an error is passed on with its complaint and cursor unchanged |
| Parser.TypeAt | include/parser.c:63-140 | a parsed type leaves the cursor at or after its start, inside the token array |
| Parser.FnTypeAt | include/parser.c:79-134 | the `fn(...)` case leaves the cursor inside the token array |
| Parser.TypeParamsAt | include/parser.c:93-117 | the parameter-type loop leaves the cursor inside the token array |
| Parser.FnParamAt | include/parser.c:29-50 | one `name: T` parameter leaves the cursor inside the token array |
| Parser.FnParamsAt | include/parser.c:24-61 | the parameter loop leaves the cursor inside the token array |
| Parser.FnCallAt | include/parser.c:142-177 | a parsed call leaves the cursor inside the token array |
| Parser.CallArgsAt | include/parser.c:153-174 | the argument loop leaves the cursor inside the token array |
| Parser.PrefixAt | include/parser.c:179-261 | a parsed prefix leaves the cursor inside the token array |
| Parser.ExpAt | include/parser.c:263-321 | a parsed expression leaves the cursor where one more token can be peeked |
| Parser.ExpLoopAt | include/parser.c:271-319 | the operator loop leaves the cursor where one more token can be peeked |
| Parser.OnelinerAt | include/parser.c:323-390 | a parsed oneliner leaves the cursor inside the token array |
| Parser.AssignedAt | include/parser.c:380-389 | the assignment gains an expression and keeps everything else |
| Parser.JumpAt | include/parser.c:428-451 | `break;` or `continue;` gives that statement at its token, with the cursor on the `;` |
| Parser.ReturnAt | include/parser.c:452-473 | `return` gives a return statement at its token, with the cursor on the `;` |
| Parser.SimpleAt | include/parser.c:474-487 | an identifier statement gives a oneliner statement, with the cursor past it |
| Parser.ConditionalAt | include/parser.c:488-527 | `if` and `while` both give a conditional statement carrying their token |
| Parser.ThenAt | include/parser.c:501-514 | the then-block gives a conditional statement carrying its token |
| Parser.ElseAt | include/parser.c:511-526 | the optional else-block gives a conditional statement carrying its token |
| Parser.ForAt | include/parser.c:528-574 | `for` gives a for statement carrying its token |
| Parser.ForConditionAt | include/parser.c:544-554 | the for header from its condition on gives a for statement carrying its token |
| Parser.ForAfterAt | include/parser.c:555-573 | the for statement from its after-statement on gives a for statement carrying its token |
| Parser.FnAt | include/parser.c:575-629 | `fn` gives a function definition named by the following token; the cursor ends at most one past the token array |
| Parser.FnReturnAt | include/parser.c:600-614 | after the parameters, the definition keeps its name; the cursor ends at most one past the token array |
| Parser.FnBodyAt | include/parser.c:615-628 | the body keeps the definition's name; the cursor ends at most one past the token array, where an unclosed body ran out of tokens |
| Parser.StmtAt | include/parser.c:428-629 | a statement of the switch is never a brace statement |
| Parser.BlockAt | include/parser.c:392-653 | a block leaves the cursor at or after its start |
| Parser.ItemAt | include/parser.c:393-651 | one round of the loop leaves the cursor at or after its start |
| Parser.TokenAddress | include/parser.c:410-414 | the address of the token under the cursor is that token inside the array, and `None` exactly at one past its end |
| Parser.UnclosedBlockParses | include/parser.c:397-420 | a `{` block whose tokens run out before its `}` still parses; its close-scope statement holds the one-past-the-end address and the cursor ends one further on |
| Parser.UnclosedFnBodyParses | include/parser.c:615-628 | a function body whose tokens run out before its `}` still gives the definition, with the cursor one past the token array |
| Parser.NumberDeclaration | include/parser.c:474-487 | `x := 1;` is one oneliner statement with the cursor on its `;` |
| Parser.UnterminatedBlockProgram | include/parser.c:392-420 | the tokens of `{x := 1;` with no end-of-input token parse as open-scope, the assignment, and a close-scope at the one-past-the-end address |
| Parser.UnterminatedFnDef | include/parser.c:575-628 | `fn f() { x := 1;` running to the end of the tokens is a definition named `f` with that one statement and the cursor one past the tokens |
| Parser.UnterminatedFnProgram | include/parser.c:392-653 | those tokens parse as a program of exactly that one definition |
| Parser.TypeKeywords | include/parser.c:66-78 | `int` and `bool` are the primitive types; any token other than these and `fn` draws "expected type specification" |
| Parser.VoidReturn | include/parser.c:119-124 | `fn()` without `: R` is a parameterless function type returning `void` |
| Parser.TypeNullFree | include/parser.c:63-140 | every parsed type has no NULL anywhere in it |
| Parser.TypeParamsNullFree | include/parser.c:93-117 | every parameter type of a parsed function type is NULL-free |
| Parser.FnParamsNamed | include/parser.c:24-61 | every parameter of a definition has an identifier name and a NULL-free type |
| Parser.ParsedTypesCompare | include/ast.c:134-158 | two parsed types compare equal exactly when they are the same type once parameter names are ignored |
| Parser.PrefixTyped | include/parser.c:179-261 | every prefix node has the shape and type annotation the parser gives it (literals typed, `!` is bool, identifiers untyped) |
| Parser.FnCallTyped | include/parser.c:142-177 | every argument of a parsed call is annotated that way |
| Parser.CallArgsTyped | include/parser.c:153-174 | every parsed argument is annotated that way |
| Parser.ExpTyped | include/parser.c:263-321 | every parsed expression is correctly shaped and annotated; binary nodes are `int` for arithmetic and `bool` otherwise |
| Parser.ExpLoopTyped | include/parser.c:271-319 | the operator loop keeps that annotation |
| Parser.LeftAssociative | include/parser.c:271-319 | `a o b p c` with equal precedences parses as `(a o b) p c` |
| Parser.TighterBindsFirst | include/parser.c:277-307 | with `p` binding tighter than `o`, `a o b p c` parses as `a o (b p c)` |
| Parser.NotBindsPrefix | include/parser.c:212-230 | `! a o b` parses as `(!a) o b` |
| Parser.EofEndsExpression | include/parser.c:273-276 | an expression running into the end of input draws "expected ;" at its last token |
| Parser.WeakComparisons | include/parser.c:277-307 | `>=` and `<=` end the expression before them at parenthesis precedence and in every right operand, and are taken in only at the precedence of a statement's expression |
| Parser.ExpLoopStops | include/parser.c:277-284 | the loop stops exactly at `end` or at an operator that binds no tighter, and rejects an illegal infix operator |
| Parser.OnelinerCall | include/parser.c:328-335 | a oneliner is a call exactly when `(` follows the name |
| Parser.OnelinerAssignment | include/parser.c:336-389 | `x++`/`x--` have no expression; `:=` and `x: T =` are declarations; other operators are not |
| Parser.OnelinerRejects | include/parser.c:376-378 | any other operator after the name draws "unexpected operator" |
| Parser.IfWhileConditional | include/parser.c:488-493 | `if` and `while` both give a conditional, and its token tells them apart |
| Parser.BlockBalanced | include/parser.c:392-653 | a block only extends the given list, and every `{` it adds is matched by a `}` |
| Parser.ProgramBalanced | include/parser.c:392-653 | a parsed program has as many open-scope as close-scope statements |
| Parser.BlockEnds | include/parser.c:422-427 | at the top level `}` is an error and the end of input ends the program; inside a block they are the reverse |
| Parser.BlockFlattened | include/parser.c:397-421 | `{ break; }` becomes open-scope, break, close-scope in the enclosing list |
| Parser.ParseCache.constructor | include/parser.c:392 | the cursor at 0 and no error |
| Parser.ParseCache.ParseType | include/parser.c:63-140 | leaves the value, cursor and error `TypeAt` gives |
| Parser.ParseCache.ParseFnType | include/parser.c:79-134 | leaves the value, cursor and error `FnTypeAt` gives |
| Parser.ParseCache.TypeParams | include/parser.c:93-117 | leaves the value, cursor and error `TypeParamsAt` gives |
| Parser.ParseCache.ParseFnParam | include/parser.c:29-50 | leaves the value, cursor and error `FnParamAt` gives |
| Parser.ParseCache.ParseFnParams | include/parser.c:24-61 | leaves the value, cursor and error `FnParamsAt` gives |
| Parser.ParseCache.ParseFnCall | include/parser.c:142-177 | leaves the value, cursor and error `FnCallAt` gives |
| Parser.ParseCache.ParsePrefix | include/parser.c:179-261 | leaves the value, cursor and error `PrefixAt` gives |
| Parser.ParseCache.ParseExp | include/parser.c:263-270 | leaves the value, cursor and error `ExpAt` gives |
| Parser.ParseCache.ExpLoop | include/parser.c:271-320 | leaves the value, cursor and error `ExpLoopAt` gives |
| Parser.ParseCache.ParseOneliner | include/parser.c:323-379 | leaves the value, cursor and error `OnelinerAt` gives |
| Parser.ParseCache.ParseAssigned | include/parser.c:380-389 | leaves the value, cursor and error `AssignedAt` gives |
| Parser.ParseCache.ParseJump | include/parser.c:428-451 | leaves the value, cursor and error `JumpAt` gives |
| Parser.ParseCache.ParseReturn | include/parser.c:452-473 | leaves the value, cursor and error `ReturnAt` gives |
| Parser.ParseCache.ParseSimple | include/parser.c:474-487 | leaves the value, cursor and error `SimpleAt` gives |
| Parser.ParseCache.ParseConditional | include/parser.c:488-500 | leaves the value, cursor and error `ConditionalAt` gives |
| Parser.ParseCache.ParseThen | include/parser.c:501-514 | leaves the value, cursor and error `ThenAt` gives |
| Parser.ParseCache.ParseElse | include/parser.c:515-526 | leaves the value, cursor and error `ElseAt` gives |
| Parser.ParseCache.ParseFor | include/parser.c:528-543 | leaves the value, cursor and error `ForAt` gives |
| Parser.ParseCache.ParseForCondition | include/parser.c:544-554 | leaves the value, cursor and error `ForConditionAt` gives |
| Parser.ParseCache.ParseForAfter | include/parser.c:555-573 | leaves the value, cursor and error `ForAfterAt` gives |
| Parser.ParseCache.ParseFn | include/parser.c:575-599 | leaves the value, cursor and error `FnAt` gives |
| Parser.ParseCache.ParseFnReturn | include/parser.c:600-614 | leaves the value, cursor and error `FnReturnAt` gives |
| Parser.ParseCache.ParseFnBody | include/parser.c:615-628 | leaves the value, cursor and error `FnBodyAt` gives |
| Parser.ParseCache.ParseStatement | include/parser.c:428-638 | leaves the value, cursor and error `StmtAt` gives |
| Parser.ParseCache.Parse | include/parser.c:392-653 | leaves the statement list, cursor and error `BlockAt` gives |
| Analyzer.HashKey | include/analyzer.c:10-17 | the loop's wrapping sum gives the bucket `Hash(key)`, always in `[0, 512)` |
| Analyzer.WrapKeepsBucket | include/analyzer.c:12-16 | reducing the sum modulo 2^64 (the `size_t` wrap) does not change the bucket |
| Analyzer.EmptyRow | include/analyzer.c:51-54 | an added row has 512 free slots |
| Analyzer.GetFrom | include/analyzer.c:64-73 | a found value is stored under the key in some row at or after the start |
| Analyzer.SetFrom | include/analyzer.c:40-58 | the set keeps 512-slot rows and adds at most one row |
| Analyzer.TableSet | include/analyzer.c:38-59 | `hashtable_set` keeps every row 512 slots wide |
| Analyzer.RowsGet | include/analyzer.c:61-74 | the row loop of `hashtable_get` returns `TableGet` |
| Analyzer.RowsSet | include/analyzer.c:38-59 | the row loop of `hashtable_set` produces `TableSet` |
| Analyzer.SetIndex | include/analyzer.c:40-47 | the write goes to the first row whose slot is free or holds the key; every row before it holds another key |
| Analyzer.SetFromIs | include/analyzer.c:40-58 | the set changes exactly that one slot, or appends one fresh row with only that slot filled |
| Analyzer.GetAgree | include/analyzer.c:64-73 | two tables agreeing on a bucket's slots give the same lookup there |
| Analyzer.GetAfterSet | include/analyzer.c:38-74 | after `hashtable_set(key, v)`, `hashtable_get(key)` returns `v` |
| Analyzer.SkipPassed | include/analyzer.c:68-70 | a lookup moves past rows holding other keys in its bucket |
| Analyzer.GetOtherAfterSet | include/analyzer.c:38-74 | in a table keeping the invariant, setting one key leaves the lookup of every other key unchanged |
| Analyzer.OtherBucketAfterSet | include/analyzer.c:38-74 | a key of another bucket reads the same slots after the set |
| Analyzer.SameBucketAfterSet | include/analyzer.c:44-46 | a different key of the same bucket reads the same after an in-place overwrite |
| Analyzer.FreeSlotAfterSet | include/analyzer.c:44-46 | filling the first free slot of a bucket does not make a different key found |
| Analyzer.SetAddsRowIff | include/analyzer.c:40-48 | a row is added exactly when every existing row's slot holds some other key |
| Analyzer.SetKeepsInv | include/analyzer.c:38-59 | the set keeps occupied slots first in every bucket and each key in at most one row |
| Analyzer.HashTable.constructor | include/analyzer.c:19-25 | a table with no rows |
| Analyzer.HashTable.Set | include/analyzer.c:38-59 | in place, the rows become `TableSet` of the old rows, keeping the table invariant |
| Analyzer.HashTable.Get | include/analyzer.c:61-74 | returns `TableGet` of the rows |
| Analyzer.KeyOf | include/analyzer.c:91 | a token's name exists exactly when its extent lies inside the source |
| Analyzer.LookupFrom | include/analyzer.c:93-99 | a found binding is in the innermost scope that binds the key to a non-NULL type; the result is Unbound exactly when no scope does |
| Analyzer.Lookup | include/analyzer.c:90-100 | undefined exactly when there is a scope and the name cannot be read |
| Analyzer.DefinedHere | include/analyzer.c:139-145 | undefined exactly when there is no scope or the name cannot be read |
| Analyzer.DefinedAnywhere | include/analyzer.c:126-137 | true exactly when some scope maps the name to a non-NULL type |
| Analyzer.SetName | include/analyzer.c:102-109 | binding keeps every table 512 slots wide; scope -1 means the innermost, and an index outside the scopes is undefined |
| Analyzer.ExpR | include/analyzer.c:158-277 | analysing an expression only appends errors, and keeps scopes, source, function and loop depth |
| Analyzer.OperandsR | include/analyzer.c:166-211 | an arithmetic or logical operator only appends errors |
| Analyzer.NotR | include/analyzer.c:188-196 | `!` only appends errors |
| Analyzer.CompareR | include/analyzer.c:212-223 | `==` and `!=` only append errors |
| Analyzer.CallR | include/analyzer.c:243-275 | a call in an expression only appends errors |
| Analyzer.ArgsR | include/analyzer.c:267-273 | the argument loop only appends errors and returns one analysed argument per argument |
| Analyzer.OnelinerR | include/analyzer.c:279-422 | a oneliner keeps source, function, loop depth and scope count, only grows the errors, and keeps its kind |
| Analyzer.AssignR | include/analyzer.c:281-386 | an assignment keeps source, function, loop depth and scope count, and only grows the errors |
| Analyzer.StepR | include/analyzer.c:291-309 | `++`/`--` only append errors |
| Analyzer.CompoundR | include/analyzer.c:314-336 | compound assignments only append errors |
| Analyzer.DeclareR | include/analyzer.c:337-349 | `:=` adds no error and keeps the scope count |
| Analyzer.PlainR | include/analyzer.c:350-381 | `=` and typed declarations keep the scope count and only grow the errors |
| Analyzer.CallStmtR | include/analyzer.c:387-420 | a call statement only appends errors |
| Analyzer.BlockR | include/analyzer.c:424-545 | `validate` only grows the errors, keeps the source and returns one statement per statement |
| Analyzer.StmtR | include/analyzer.c:427-543 | one statement only grows the errors and keeps the source |
| Analyzer.ConditionR | include/analyzer.c:464-467 | a condition only appends errors |
| Analyzer.ScopedR | include/analyzer.c:468-477 | a branch only grows the errors |
| Analyzer.CondR | include/analyzer.c:461-479 | `if` only grows the errors |
| Analyzer.ForR | include/analyzer.c:480-499 | `for` only grows the errors |
| Analyzer.LoopBodyR | include/analyzer.c:490-496 | a loop body only grows the errors |
| Analyzer.FnR | include/analyzer.c:500-542 | a function definition only grows the errors and leaves no current function |
| Analyzer.FnHeadR | include/analyzer.c:501-533 | the head opens exactly one scope and keeps the loop depth |
| Analyzer.FnBodyR | include/analyzer.c:534-541 | the body leaves no current function |
| Analyzer.ParamsR | include/analyzer.c:515-523 | the parameter loop keeps the scope count, source, function and loop depth |
| Analyzer.ParamR | include/analyzer.c:516-522 | one parameter keeps the scope count, source, function and loop depth |
| Analyzer.SetNameKeepsInv | include/analyzer.c:102-109 | binding a name keeps the table invariant in every scope |
| Analyzer.FreshCacheEmpty | include/analyzer.c:76-88 | a fresh cache keeps the invariants, and every lookup in it misses |
| Analyzer.DeclarationShadows | include/analyzer.c:90-109 | after binding a name in the innermost scope, looking it up finds that binding there |
| Analyzer.BlockBalance | include/analyzer.c:424-545 | `validate` changes the scope count by the opens minus the closes and restores the loop depth |
| Analyzer.StmtBalance | include/analyzer.c:427-543 | `{` pushes and `}` pops a scope; compound statements change the count by what their blocks do and restore the loop depth |
| Analyzer.ScopedBalance | include/analyzer.c:468-477 | a branch changes the scope count by its block's net |
| Analyzer.CondBalance | include/analyzer.c:461-479 | `if` changes the scope count by its branches' nets |
| Analyzer.ForBalance | include/analyzer.c:480-499 | `for` changes the scope count by its body's net and restores the loop depth |
| Analyzer.LoopBodyBalance | include/analyzer.c:490-496 | the loop body's extra depth is undone |
| Analyzer.FnBalance | include/analyzer.c:500-542 | a function definition changes the scope count by its body's net |
| Analyzer.ColonEqRedefinition | include/analyzer.c:287-289 | `x := e` with `x` already bound in the innermost scope reports "variable redefinition is not allowed" and binds nothing |
| Analyzer.ColonEqDeclares | include/analyzer.c:337-349 | `x := e` of a new name binds `x` in the innermost scope to the expression's type |
| Analyzer.AssignIsDeclare | include/analyzer.c:310-349 | such a `:=` runs the expression, then the declaration |
| Analyzer.DeclareBinds | include/analyzer.c:341-347 | the declaration records the type and scope and binds the name innermost |
| Analyzer.ParamsKeepOuter | include/analyzer.c:515-523 | parameters are bound only in the innermost scope |
| Analyzer.FnRedefinition | include/analyzer.c:504-512 | a function name some scope already binds reports "variable redefinition is not allowed" and changes no outer table |
| Analyzer.FnBindsName | include/analyzer.c:527-532 | an unbound function name is bound to its function type in the scope enclosing its parameters, and nothing further out changes |
| Analyzer.ParamStep | include/analyzer.c:516-522 | a parameter step keeps the invariant and the innermost bindings, and a typed parameter becomes bound |
| Analyzer.DuplicateFrom | include/analyzer.c:516-519 | once a name is bound innermost, any later parameter spelling it is reported |
| Analyzer.DuplicateParamReported | include/analyzer.c:515-523 | two parameters spelling one name, the first typed, report "parameter with the same name already exists" |
| Analyzer.ExpNoSyntax | include/analyzer.c:158-277 | expressions report no SyntaxError |
| Analyzer.OperandsNoSyntax | include/analyzer.c:166-211 | operators report no SyntaxError |
| Analyzer.CallNoSyntax | include/analyzer.c:243-275 | calls report no SyntaxError |
| Analyzer.ArgsNoSyntax | include/analyzer.c:267-273 | arguments report no SyntaxError |
| Analyzer.OnelinerNoSyntax | include/analyzer.c:279-422 | oneliners report no SyntaxError |
| Analyzer.AssignNoSyntax | include/analyzer.c:281-386 | assignments report no SyntaxError |
| Analyzer.StepNoSyntax | include/analyzer.c:291-309 | `++`/`--` report no SyntaxError |
| Analyzer.CompoundNoSyntax | include/analyzer.c:314-336 | compound assignments report no SyntaxError |
| Analyzer.PlainNoSyntax | include/analyzer.c:350-381 | `=` and typed declarations report no SyntaxError |
| Analyzer.CallStmtNoSyntax | include/analyzer.c:387-420 | call statements report no SyntaxError |
| Analyzer.WhileBreakRejected | include/analyzer.c:434-438 | a `break` as the body of a `while` outside any loop yields "break statement outside of a loop" (a `while` is only a conditional) |
| Analyzer.ForBreakAccepted | include/analyzer.c:480-499 | a `break` as the body of a `for` adds no SyntaxError |
| Analyzer.ForBodyBreak | include/analyzer.c:490-496 | the body `break` sees a loop depth above zero |
| Analyzer.ConditionNoSyntax | include/analyzer.c:464-467 | a condition reports no SyntaxError |
| Analyzer.NoSyntaxTrans | include/analyzer.c:424-545 | SyntaxError-freedom composes over consecutive steps |
| Analyzer.BreakBodyQuiet | include/analyzer.c:434-438 | one loop level down, a body consisting of `break` adds no error |
| Analyzer.JumpMessage | include/analyzer.c:434-443 | `break` and `continue` are reported with their own messages |
| Analyzer.JumpsReported | include/analyzer.c:424-443 | outside every loop, each `break` and `continue` of a block is reported with its message and token among the errors the block adds |
| Analyzer.BlockJumpFree | include/analyzer.c:424-443 | inside a loop, a block reports no `break` or `continue`, however deeply they are nested |
| Analyzer.StmtJumpFree | include/analyzer.c:427-541 | inside a loop, no statement reports a `break` or `continue` |
| Analyzer.ReturnJumpFree | include/analyzer.c:444-456 | a `return` reports only its own SyntaxError and what its expression reports |
| Analyzer.ScopedJumpFree | include/analyzer.c:468-477 | inside a loop, a branch block reports no `break` or `continue` |
| Analyzer.CondJumpFree | include/analyzer.c:461-479 | inside a loop, a conditional reports no `break` or `continue`: its branches keep the loop depth |
| Analyzer.ForJumpFree | include/analyzer.c:480-499 | a `for` at any depth reports no `break` or `continue` in its header or body |
| Analyzer.LoopBodyJumpFree | include/analyzer.c:490-496 | a `for` body runs one loop level deeper, so it reports no `break` or `continue` |
| Analyzer.FnJumpFree | include/analyzer.c:500-541 | inside a loop, a function definition reports no `break` or `continue`: its body keeps the caller's loop depth |
| Analyzer.FnHeadNoSyntax | include/analyzer.c:501-532 | a function head reports no SyntaxError |
| Analyzer.ParamsNoSyntax | include/analyzer.c:515-523 | the parameter loop reports no SyntaxError |
| Analyzer.CondJumpsReported | include/analyzer.c:461-479 | a conditional runs both branches at its own loop depth: outside every loop, each `break` and `continue` at the top of either branch is reported |
| Analyzer.ScopedJumpsReported | include/analyzer.c:468-477 | a branch block in its own scope runs at the caller's loop depth |
| Analyzer.NoJumpTrans | include/analyzer.c:424-541 | adding no `break`/`continue` report composes over consecutive steps |
| Analyzer.ErrorKept | include/analyzer.c:424-541 | an error added by a later step stays among the errors added since an earlier one |
| Analyzer.CallChecks | include/analyzer.c:243-275 | the call checks: "undefined function", "not a function", "wrong number of arguments", the return type, the written-back node |
| Analyzer.ArgsUnchecked | include/analyzer.c:263-273 | argument types are not compared when the arity check failed |
| Analyzer.AnalysisCache.constructor | include/analyzer.c:76-88 | one empty scope, no errors, no current function, loop depth 0 |
| Analyzer.AnalysisCache.Key | include/analyzer.c:91 | the `substring` copy of the token's text |
| Analyzer.AnalysisCache.Get | include/analyzer.c:90-100 | returns the innermost binding and its depth; on a miss, NULL and the scope left as it was |
| Analyzer.AnalysisCache.Set | include/analyzer.c:102-109 | the state becomes `SetName` of the old one |
| Analyzer.AnalysisCache.Extend | include/analyzer.c:111-117 | one more, empty, innermost scope |
| Analyzer.AnalysisCache.Shrink | include/analyzer.c:119-124 | the innermost scope dropped |
| Analyzer.AnalysisCache.Defined | include/analyzer.c:126-137 | the outward loop answers `DefinedAnywhere` |
| Analyzer.AnalysisCache.DefinedInCurrentScope | include/analyzer.c:139-145 | answers `DefinedHere` |
| Analyzer.AnalysisCache.AddError | include/analyzer.c:147-156 | one error appended |
| Analyzer.AnalysisCache.ProcessExpression | include/analyzer.c:158-277 | ends in the state and result of `ExpR` |
| Analyzer.AnalysisCache.Operands | include/analyzer.c:166-211 | ends in the state and result of `OperandsR` |
| Analyzer.AnalysisCache.ProcessNot | include/analyzer.c:188-196 | ends in the state and result of `NotR` |
| Analyzer.AnalysisCache.ProcessCompare | include/analyzer.c:212-223 | ends in the state and result of `CompareR` |
| Analyzer.AnalysisCache.ProcessCall | include/analyzer.c:243-266 | ends in the state and result of `CallR` |
| Analyzer.AnalysisCache.ProcessArgs | include/analyzer.c:267-273 | the argument loop ends in the state and result of `ArgsR` |
| Analyzer.AnalysisCache.ProcessOneliner | include/analyzer.c:279-422 | ends in the state and result of `OnelinerR` |
| Analyzer.AnalysisCache.ProcessAssignment | include/analyzer.c:281-312 | ends in the state and result of `AssignR` |
| Analyzer.AnalysisCache.ProcessStep | include/analyzer.c:291-309 | ends in the state and result of `StepR` |
| Analyzer.AnalysisCache.ProcessCompound | include/analyzer.c:314-336 | ends in the state and result of `CompoundR` |
| Analyzer.AnalysisCache.ProcessDeclare | include/analyzer.c:337-349 | ends in the state and result of `DeclareR` |
| Analyzer.AnalysisCache.ProcessPlain | include/analyzer.c:350-381 | ends in the state and result of `PlainR` |
| Analyzer.AnalysisCache.ProcessCallStmt | include/analyzer.c:387-420 | ends in the state and result of `CallStmtR` |
| Analyzer.AnalysisCache.Validate | include/analyzer.c:424-545 | the statement loop ends in the state and result of `BlockR` |
| Analyzer.AnalysisCache.ValidateStmt | include/analyzer.c:427-543 | ends in the state and result of `StmtR` |
| Analyzer.AnalysisCache.ProcessCondition | include/analyzer.c:464-467 | ends in the state and result of `ConditionR` |
| Analyzer.AnalysisCache.ValidateScoped | include/analyzer.c:468-477 | ends in the state and result of `ScopedR` |
| Analyzer.AnalysisCache.ValidateConditional | include/analyzer.c:461-479 | ends in the state and result of `CondR` |
| Analyzer.AnalysisCache.ValidateFor | include/analyzer.c:480-499 | ends in the state and result of `ForR` |
| Analyzer.AnalysisCache.ValidateLoopBody | include/analyzer.c:490-496 | ends in the state and result of `LoopBodyR` |
| Analyzer.AnalysisCache.ValidateFn | include/analyzer.c:500-542 | ends in the state and result of `FnR` |
| Analyzer.AnalysisCache.DeclareFn | include/analyzer.c:501-533 | ends in the state `FnHeadR` gives |
| Analyzer.AnalysisCache.BindParams | include/analyzer.c:515-523 | ends in the state `ParamsR` gives |
| Analyzer.AnalysisCache.BindParam | include/analyzer.c:516-522 | ends in the state `ParamR` gives |
| Analyzer.AnalysisCache.ValidateFnBody | include/analyzer.c:534-541 | ends in the state and result of `FnBodyR` |
| Bytecode.RunEnd | include/bytecode_compiler.c:41-42 | the scan of `atoi` stops at the first character outside the run |
| Bytecode.AtoiDigits | include/bytecode_compiler.c:41-43 | a digit string within `int` range reads as its decimal value |
| Compiler.AppendJoin | include/bytecode_compiler.c:9-28 | appending two fragments in turn appends their concatenation |
| Compiler.AppendNothing | include/bytecode_compiler.c:9-28 | appending nothing changes nothing |
| Compiler.CompileExpAppends | include/bytecode_compiler.c:30-152 | from a clean state, `compile_expression` appends exactly the bottom-up code of the expression, and sets the flag when it is rejected |
| Compiler.StackDeltaConcat | include/vm.c:55-198 | the stack effect of concatenated code is the sum of the effects |
| Compiler.CountOfConcat | include/bytecode_compiler.c:9-14 | opcode counts add up over concatenation |
| Compiler.CountOfOne | include/bytecode_compiler.c:9-14 | a single opcode counts once for itself |
| Compiler.JoinShaped | include/bytecode_compiler.c:30-152 | joining value-only fragments stays value-only |
| Compiler.SingleShape | include/bytecode_compiler.c:40-75 | a single push or load leaves its own stack effect |
| Compiler.JoinValueCode | include/bytecode_compiler.c:89-142 | joining value-only code adds up the values left |
| Compiler.ExpCodeShape | include/bytecode_compiler.c:30-152 | the code of an accepted expression pushes, loads and combines only, and leaves exactly one value |
| Compiler.RejectedExpression | include/bytecode_compiler.c:33-37 | a call, or a function-typed expression, only sets `has_error` |
| Compiler.BinaryOpcode | include/bytecode_compiler.c:98-137 | whatever opcode a binary operator token maps to is a two-operand opcode |
| Compiler.BinaryOpcodes | include/bytecode_compiler.c:98-137 | each binary operator token maps to its two-operand opcode |
| Compiler.ValueOpsConcat | include/bytecode_compiler.c:30-152 | concatenating value-only opcode sequences stays value-only |
| Compiler.ValueOpsAt | include/bytecode_compiler.c:30-152 | every opcode of value-only code pushes, loads or combines values |
| Compiler.CompoundLowering | include/bytecode_compiler.c:187-225 | a compound assignment appends `Load`, the operand, the arithmetic opcode and `Store` |
| Compiler.AssignLowering | include/bytecode_compiler.c:167-236 | `:=`/`=` append expression code then `Store`; compound operators append expression, `Load`, operand, op, `Store`; then the name and scope |
| Compiler.NoScopeCodes | include/bytecode_compiler.c:167-236 | scope-free code counts no scope opcodes |
| Compiler.AssignNoScopes | include/bytecode_compiler.c:167-236 | lowered assignments emit no scope opcodes |
| Compiler.StepScopes | include/bytecode_compiler.c:163-252 | a lowered statement emits `CreateScope` only for `{` and `DestroyScope` only for `}` |
| Compiler.CountAppended | include/bytecode_compiler.c:161-253 | counts of appended opcodes add up over two steps |
| Compiler.CompileFromLowered | include/bytecode_compiler.c:161-254 | when every remaining statement is lowered, the loop runs to the end and its scope opcodes match the braces plus the closing one |
| Compiler.ProgramBracketed | include/bytecode_compiler.c:154-255 | a lowered program with balanced braces emits as many `CreateScope` as `DestroyScope`, with the error flag clear |
| Compiler.EmptyProgram | include/bytecode_compiler.c:157-159 | an empty program emits nothing |
| Compiler.UnsupportedStops | include/bytecode_compiler.c:237-251 | a call, `if`, `for`, `fn`, `break`, `continue` or `return` ends compilation with no closing `DestroyScope` |
| Compiler.IllegalOperatorStops | include/bytecode_compiler.c:228-230 | an unknown assignment operator ends compilation after its expression, with the flag clear |
| Compiler.RejectedAssignmentStops | include/bytecode_compiler.c:169-172 | a rejected assignment expression ends compilation with the flag set |
| Compiler.Emitter.constructor | include/bytecode_compiler.c:154-155 | empty buffers and the caller's flag |
| Compiler.Emitter.AddCommand | include/bytecode_compiler.c:9-14 | one opcode appended |
| Compiler.Emitter.AddConstant | include/bytecode_compiler.c:16-21 | one constant appended |
| Compiler.Emitter.AddRefScope | include/bytecode_compiler.c:23-28 | one scope appended |
| Compiler.Emitter.CompileExpression | include/bytecode_compiler.c:30-152 | the buffers become what `CompileExp` gives |
| Compiler.Emitter.CompileLeaf | include/bytecode_compiler.c:40-75 | literals and identifiers as `CompileExp` gives |
| Compiler.Emitter.CompileNot | include/bytecode_compiler.c:59-67 | `!` as `CompileExp` gives |
| Compiler.Emitter.CompileBinary | include/bytecode_compiler.c:76-145 | binary operators as `CompileExp` gives |
| Compiler.Emitter.NameOf | include/bytecode_compiler.c:187 | the `substring` of the token |
| Compiler.Emitter.CompileStatement | include/bytecode_compiler.c:162-252 | one pass of the loop as `StmtStep` gives, and `stop` exactly when it returns |
| Compiler.Emitter.CompileToBytecode | include/bytecode_compiler.c:154-255 | the buffers become what `CompileProgram` gives |
| Vm.Resized | include/vm.c:9 | `realloc` keeps the common prefix, and new cells hold the fill |
| Vm.PushEffect | include/vm.c:6-14 | a push keeps the slots below, writes the new top and grows the size by one |
| Vm.PushDefined | include/vm.c:6-14 | a push is undefined exactly when even the doubled buffer has no slot for it |
| Vm.PopEffect | include/vm.c:16-24 | a pop returns the old top, shrinks the size by one and keeps the slots below |
| Vm.PopAfterPush | include/vm.c:6-24 | a pop right after a push returns the pushed value and restores the size and live slots |
| Vm.ScopeRoundTrip | include/vm.c:40-53 | recording and clearing a scope start returns the record and restores the others |
| Vm.ScopePushDefined | include/vm.c:40-48 | recording is defined exactly when no growth is needed and the buffer has room, because growth reallocates to bytes |
| Vm.ThirtyThirdScopeFaults | include/vm.c:40-48 | from `vm_init`'s 32 cells, the 33rd nested scope start is undefined |
| Vm.TruncDivMod | include/vm.c:111-116 | C's truncating `/` and `%` recombine to the dividend, the remainder is smaller than the divisor, and it has the dividend's sign |
| Vm.TruncModFits | include/vm.c:114-116 | the remainder of two `int`s is an `int` |
| Vm.NotEqAlwaysZero | include/vm.c:117-120 | `IntNotEqCode` always yields 0 |
| Vm.ComparisonsAreBooleans | include/vm.c:117-138 | each of `==`, `<`, `>=`, `>`, `<=`, `&&` and `\|\|` yields 1 exactly when its relation holds and 0 otherwise; the booleans take any non-zero word as true |
| Vm.DivisionDefined | include/vm.c:111-116 | division and remainder are undefined exactly for a zero divisor or `INT_MIN / -1` |
| Vm.TruncDivFits | include/vm.c:111-113 | a truncated quotient overflows only for `INT_MIN / -1` |
| Vm.Initial | include/vm.c:26-38 | `vm_init`: counter 0, 128 unwritten stack slots, 32 scope cells, both empty |
| Vm.ScopeCommands | include/vm.c:60-65 | `CreateScope` records the stack size; `DestroyScope` is defined exactly with a record and resets the stack size to it |
| Vm.LoadCopies | include/vm.c:69-73 | `Load o` pushes a copy of slot `size - o - 1` |
| Vm.StoreMoves | include/vm.c:74-82 | `Store 0` does nothing; `Store o` pops the top into the slot `o` below the new top |
| Vm.BinaryCombines | include/vm.c:83-145 | a binary command pops right then left and pushes their result |
| Vm.BinaryPops | include/vm.c:99-100 | the two pops shrink the stack by two before the push |
| Vm.NotNegates | include/vm.c:146-153 | `BoolNot` replaces the top by 1 when it is 0 and by 0 otherwise |
| Vm.Jumps | include/vm.c:154-166 | `Goto` sets the counter to its operand; `GotoIf` pops and jumps only when the value is nonzero |
| Vm.UnknownAdvances | include/vm.c:192-194 | an opcode the loop does not know prints the illegal-instruction line and advances |
| Vm.PrintsPop | include/vm.c:167-191 | each of the three print commands pops the top and moves on; the int print appends the number, the bool print `false` for 0 and `true` otherwise, the string print the raw word |
| Vm.HaltsOutside | include/vm.c:57 | a run halts only with the counter outside the program, and a counter outside it halts at once |
| Vm.ExecCompose | include/vm.c:57-197 | running `a` passes then `b` more is running `a + b` passes |
| Vm.StepAdvances | include/vm.c:196 | without jumps every pass advances the counter by one |
| Vm.JumpFreeTerminates | include/vm.c:55-198 | a program without jumps halts or faults within as many passes as it has commands |
| Vm.Reallocate | include/vm.c:9 | the new array holds `Resized` of the old contents |
| Vm.Machine.constructor | include/vm.c:26-38 | the machine state is `Initial` |
| Vm.Machine.Push | include/vm.c:6-14 | the stack becomes `StackPush` of the old one; the scope records and output are unchanged |
| Vm.Machine.Pop | include/vm.c:16-24 | returns the value and leaves the stack `StackPop` gives |
| Vm.Machine.SetScopeStart | include/vm.c:40-48 | faults exactly when `ScopePush` is undefined; otherwise the records become what it gives |
| Vm.Machine.ClearLastScope | include/vm.c:50-53 | drops the last record and resets the stack size to it |
| Vm.Machine.Execute | include/vm.c:58-196 | one pass of the loop moves the machine as `Step` does |
| Vm.Machine.Run | include/vm.c:55-198 | the loop ends as `Exec` does: halted with the counter outside the program, or paused when the fuel runs out |

## Left out

- I/O is left out everywhere. This covers reading the file, the `printf` traces of every stage, `bytecode_visualize`, `visualize_program`, and the ncurses debugger. The VM's printed lines are recorded in an output sequence instead.
- main.c (argument handling and the pipeline of stages) is not part of this model. Only its precedence and infix tables are used: as the parser's `Prec` and `InfixFlag`.
- Memory management is not modelled: `malloc`, `free`, `hashtable_destroy`, and the `*_init` helpers that parser.c calls but that no core file defines. The parser builds its nodes with the `*Create` functions instead.
- error.c is not part of this model. An error is its kind, message and token.
- Parser.ParseCache: the two tables the driver hands in are read as the fixed functions `Prec` and `InfixFlag`, not as table objects.
- Parser.ParseCache.Parse: the statement array's `realloc` and capacity doubling are not modelled. A parse that fails returns only its error, not the partial statement list left in the buffer.
- Parser.Prec: `>=` and `<=` have precedence 0 because the driver does not set them. So they are the loosest binary operators of a statement's expression, and they end an expression in parentheses, an argument or a right operand (`Parser.WeakComparisons`), as in the code.
- Parser.ElseAt: a `while` takes an `else` block, as the code does.
- Parser.TypeAt: reading a token past the token array is undefined in C, and every parsing function gives `PUndef` for it. Only the address one past the end is kept without being read (`Parser.TokenAddress`).
- Lexer.Tokenize: the source must end with the EOF character and contain only ASCII, as the driver's reading loop supplies. For any other buffer a look-ahead or a table index leaves its bounds, which is undefined in C.
- Analyzer.AnalysisCache: the scope tables are held as values (`seq<Rows>`), not as `HashTable` objects. The C aliasing of key strings and type pointers between tables and the tree is not modelled.
- Analyzer.HashKey: the `int` overflow of `(i + 1) * key[i]` for very long keys is not modelled. The `size_t` wrap of the sum is modelled.
- Analyzer.PlainR: on a miss, the uninitialised `scope` written to the assignment is modelled as leaving its old value.
- Analyzer.CompoundR: for a Complex variable, the union read of `simple_datatype` is taken as "not `int`".
- Analyzer.Lookup: a name outside the source is undefined only where it is hashed. With no scope, the lookup never reads it.
- Analyzer.AnalysisCache: `current_scope` is kept but never read, as in the code. `is_invalid` is always 0, so its branch is left out. The loop depth is an unbounded integer.
- Vm.Machine.Run: `vm_run` may loop forever. The model runs at most `fuel` passes and reports a pause when the fuel is spent.
- Bytecode.OpCode: bytecode.h declares the opcodes only up to `BoolOrCode` (bytecode.h:6-30), and its `Constant` union has no string member (bytecode.h:34-38). vm.c and bytecode_compiler.c also use `GotoCode`, `GotoIfCode`, the three print opcodes and a string constant; the model follows those two files.
- Vm.Step: a `Constant` is modelled by its `int_data` word only. A string constant is printed as that raw word, not as the text it points to.
- Compiler.Emitter: the variable-name constants hold the `substring` text instead of a pointer.
