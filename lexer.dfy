/** The scanner of include/lexer.c. `Tokenize` is the imperative loop with
    its lookup tables and keyword tree; `LexFrom` is the reference
    definition it is proved equal to, and the lemmas below state what every
    token of the output satisfies. */
module Lexer {
  import opened Utils
  import opened Tokens

  /** The character -1 that ends every source (the value `fgetc` returns at
      end of file, stored in a `char`); a 0xFF byte reads the same way. */
  const EofChar: char := '\U{FF}'

  /** Characters the scanner can classify without indexing a table with a
      negative `char`: ASCII and the EOF character. */
  predicate LexChar(c: char)
  {
    c as int < 128 || c == EofChar
  }

  /** What `tokenize` needs of its input: every character is classifiable
      and the source ends with the EOF character, so every look-ahead
      (`source[start + 1]`, `source[end]`) stays inside the buffer. */
  predicate WellFormedSource(src: string)
  {
    |src| > 0 && src[|src| - 1] == EofChar &&
    forall i :: 0 <= i < |src| ==> LexChar(src[i])
  }

  predicate IsDigit(c: char) { '0' <= c <= '9' }

  predicate IsAlpha(c: char) { ('a' <= c <= 'z') || ('A' <= c <= 'Z') }

  predicate IsIdentChar(c: char) { IsDigit(c) || IsAlpha(c) || c == '_' }

  // ---------------------------------------------------------------------
  // The four character tables and the keyword map, as functions

  /** The `singlechars` table. */
  function SingleCharKind(c: char): TokenType
  {
    match c
    case ',' => Comma case ';' => Semicolon
    case '{' => LBrace case '}' => RBrace
    case '(' => LParen case ')' => RParen
    case _ => Illegal
  }

  /** The `operators` table. */
  function OperatorKind(c: char): TokenType
  {
    match c
    case '+' => Plus case '-' => Minus case '*' => Star case '/' => Slash
    case '%' => Mod case '<' => Lt case '>' => Gt case '!' => Not
    case ':' => Colon case '=' => Eq
    case _ => Illegal
  }

  /** The `eq_modifiers` table: an operator character followed by `=`. */
  function EqModifierKind(c: char): TokenType
  {
    match c
    case '+' => PlusEq case '-' => MinusEq case '*' => StarEq case '/' => SlashEq
    case '%' => ModEq case '<' => LtE case '>' => GtE case '!' => NotEq
    case ':' => ColEq case '=' => EqEq
    case _ => Illegal
  }

  /** The `self_modifiers` table: a doubled operator character. */
  function SelfModifierKind(c: char): TokenType
  {
    match c
    case '+' => Inc case '-' => Dec
    case _ => Illegal
  }

  /** The reserved words that steer control flow. */
  function ControlKind(s: string): TokenType
  {
    if s == "if" then If
    else if s == "else" then Else
    else if s == "for" then For
    else if s == "while" then While
    else Illegal
  }

  /** The reserved words that leave a loop or a function, or define one. */
  function FlowKind(s: string): TokenType
  {
    if s == "break" then Break
    else if s == "continue" then Continue
    else if s == "fn" then Fn
    else if s == "return" then Return
    else Illegal
  }

  /** The reserved type names and boolean literals. */
  function ValueKind(s: string): TokenType
  {
    if s == "int" then IntType
    else if s == "bool" then BoolType
    else if s == "true" then True
    else if s == "false" then False
    else Illegal
  }

  /** No word is reserved in two groups. */
  lemma KeywordGroupsDisjoint(s: string)
    ensures !ControlKind(s).Illegal? ==> FlowKind(s).Illegal? && ValueKind(s).Illegal?
    ensures !FlowKind(s).Illegal? ==> ValueKind(s).Illegal?
  {
  }

  /** The keyword map: the kind of a reserved word, Illegal otherwise. */
  function KeywordKind(s: string): TokenType
  {
    if !ControlKind(s).Illegal? then ControlKind(s)
    else if !FlowKind(s).Illegal? then FlowKind(s)
    else ValueKind(s)
  }

  // ---------------------------------------------------------------------
  // Scanning runs

  /** The end of the digit run starting at `i` (maximal munch). */
  function DigitRunEnd(src: string, i: nat): (j: nat)
    requires WellFormedSource(src) && i < |src|
    ensures i <= j < |src| && !IsDigit(src[j])
    ensures forall k :: i <= k < j ==> IsDigit(src[k])
    decreases |src| - i
  {
    if IsDigit(src[i]) then DigitRunEnd(src, i + 1) else i
  }

  /** The end of the identifier run starting at `i` (maximal munch). */
  function IdentRunEnd(src: string, i: nat): (j: nat)
    requires WellFormedSource(src) && i < |src|
    ensures i <= j < |src| && !IsIdentChar(src[j])
    ensures forall k :: i <= k < j ==> IsIdentChar(src[k])
    decreases |src| - i
  {
    if IsIdentChar(src[i]) then IdentRunEnd(src, i + 1) else i
  }

  /** Where a `#` comment starting at `i` stops: the next newline (which is
      not consumed) or the end of the source. */
  function CommentEnd(src: string, i: nat): (j: nat)
    requires i <= |src|
    ensures i <= j <= |src|
    ensures j < |src| ==> src[j] == '\n'
    ensures forall k :: i <= k < j ==> src[k] != '\n'
    decreases |src| - i
  {
    if i < |src| && src[i] != '\n' then CommentEnd(src, i + 1) else i
  }

  // ---------------------------------------------------------------------
  // One iteration of the scanning loop, and the whole scan

  /** The outcome of one loop iteration: the token it appends (if any) and
      the new `start`, `line` and `line_start`. */
  datatype Step = Step(token: Option<Token>, next: nat, line: nat, lineStart: nat)

  /** One iteration of `tokenize`'s loop at position `s`. */
  function StepAt(src: string, s: nat, line: nat, ls: nat): (r: Step)
    requires WellFormedSource(src) && s < |src|
    ensures s < r.next <= |src|
  {
    var ch := src[s];
    if ch == ' ' then Step(None, s + 1, line, ls)
    else if ch == '\n' then Step(None, s + 1, line + 1, s + 1)
    else if ch == '#' then Step(None, CommentEnd(src, s), line, ls)
    else if ch == '|' || ch == '&' then
      (if src[s + 1] == ch then Step(Some(Token(if ch == '|' then Or else And, line, ls, s, s + 2)), s + 2, line, ls)
       else Step(Some(Token(Illegal, line, ls, s, s + 1)), s + 1, line, ls))
    else if ch == EofChar then Step(Some(Token(Eof, line, ls, s, s + 1)), s + 1, line, ls)
    else if !OperatorKind(ch).Illegal? then OperatorStep(src, s, line, ls)
    else if !SingleCharKind(ch).Illegal? then Step(Some(Token(SingleCharKind(ch), line, ls, s, s + 1)), s + 1, line, ls)
    else if IsDigit(ch) then
      var e := DigitRunEnd(src, s + 1);
      Step(Some(Token(Number, line, ls, s, e)), e, line, ls)
    else if IsAlpha(ch) || ch == '_' then
      var e := IdentRunEnd(src, s + 1);
      var kw := KeywordKind(src[s..e]);
      Step(Some(Token(if !kw.Illegal? then kw else Identifier, line, ls, s, e)), e, line, ls)
    else Step(Some(Token(Illegal, line, ls, s, s + 1)), s + 1, line, ls)
  }

  /** The operator branch of the loop at an operator character `src[s]`:
      `c=` first, then a doubled self-modifier, then the single operator. */
  function OperatorStep(src: string, s: nat, line: nat, ls: nat): (r: Step)
    requires WellFormedSource(src) && s < |src| && src[s] != EofChar
    ensures s < r.next <= |src|
  {
    var ch := src[s];
    if src[s + 1] == '=' then Step(Some(Token(EqModifierKind(ch), line, ls, s, s + 2)), s + 2, line, ls)
    else if src[s + 1] == ch && !SelfModifierKind(ch).Illegal? then
      Step(Some(Token(SelfModifierKind(ch), line, ls, s, s + 2)), s + 2, line, ls)
    else Step(Some(Token(OperatorKind(ch), line, ls, s, s + 1)), s + 1, line, ls)
  }

  /** The tokens `tokenize` appends from position `s` on, with the given
      line counter and line start. */
  function LexFrom(src: string, s: nat, line: nat, ls: nat): seq<Token>
    requires WellFormedSource(src) && s <= |src|
    decreases |src| - s
  {
    if s == |src| then []
    else
      var st := StepAt(src, s, line, ls);
      (if st.token.Some? then [st.token.value] else []) + LexFrom(src, st.next, st.line, st.lineStart)
  }

  /** `LexFrom` at a position before the end: the token of one step, then
      the rest. */
  lemma LexFromStep(src: string, s: nat, line: nat, ls: nat)
    requires WellFormedSource(src) && s < |src|
    ensures var st := StepAt(src, s, line, ls);
      LexFrom(src, s, line, ls) ==
        (if st.token.Some? then [st.token.value] else []) + LexFrom(src, st.next, st.line, st.lineStart)
  {
  }

  /** The whole output of `tokenize`. */
  function Lex(src: string): seq<Token>
    requires WellFormedSource(src)
  {
    LexFrom(src, 0, 1, 0)
  }

  // ---------------------------------------------------------------------
  // The imperative scanner

  /** The slots of the `singlechars` table after its `ch_ht_set` calls. */
  ghost function SingleCharsSlots(): seq<TokenType>
  {
    seq(300, _ => Illegal)[',' as int := Comma][';' as int := Semicolon]['{' as int := LBrace]['}' as int := RBrace]['(' as int := LParen][')' as int := RParen]
  }

  /** Every character's slot holds the kind `SingleCharKind` gives it. */
  lemma SingleCharsSlotsAgree(c: char)
    requires IsTableChar(c)
    ensures SingleCharsSlots()[c as int] == SingleCharKind(c)
  {
  }

  method MakeSingleChars() returns (t: ChTable)
    ensures fresh(t.values) && t.Valid()
    ensures forall c :: IsTableChar(c) ==> t.Get(c) == SingleCharKind(c)
  {
    t := new ChTable();
    t.Set(',', Comma);
    t.Set(';', Semicolon);
    t.Set('{', LBrace);
    t.Set('}', RBrace);
    t.Set('(', LParen);
    t.Set(')', RParen);
    assert t.values[..] == SingleCharsSlots();
    forall c | IsTableChar(c)
      ensures t.Get(c) == SingleCharKind(c)
    {
      SingleCharsSlotsAgree(c);
      assert t.Get(c) == t.values[..][c as int];
    }
  }

  /** The slots of the `operators` table after its `ch_ht_set` calls. */
  ghost function OperatorsSlots(): seq<TokenType>
  {
    seq(300, _ => Illegal)['+' as int := Plus]['-' as int := Minus]['*' as int := Star]['/' as int := Slash]['%' as int := Mod]['<' as int := Lt]['>' as int := Gt]['!' as int := Not][':' as int := Colon]['=' as int := Eq]
  }

  /** Every character's slot holds the kind `OperatorKind` gives it. */
  lemma OperatorsSlotsAgree(c: char)
    requires IsTableChar(c)
    ensures OperatorsSlots()[c as int] == OperatorKind(c)
  {
  }

  method MakeOperators() returns (t: ChTable)
    ensures fresh(t.values) && t.Valid()
    ensures forall c :: IsTableChar(c) ==> t.Get(c) == OperatorKind(c)
  {
    t := new ChTable();
    t.Set('+', Plus);
    t.Set('-', Minus);
    t.Set('*', Star);
    t.Set('/', Slash);
    t.Set('%', Mod);
    t.Set('<', Lt);
    t.Set('>', Gt);
    t.Set('!', Not);
    t.Set(':', Colon);
    t.Set('=', Eq);
    assert t.values[..] == OperatorsSlots();
    forall c | IsTableChar(c)
      ensures t.Get(c) == OperatorKind(c)
    {
      OperatorsSlotsAgree(c);
      assert t.Get(c) == t.values[..][c as int];
    }
  }

  /** The slots of the `eqmodifiers` table after its `ch_ht_set` calls. */
  ghost function EqModifiersSlots(): seq<TokenType>
  {
    seq(300, _ => Illegal)['+' as int := PlusEq]['-' as int := MinusEq]['*' as int := StarEq]['/' as int := SlashEq]['%' as int := ModEq]['<' as int := LtE]['>' as int := GtE]['!' as int := NotEq][':' as int := ColEq]['=' as int := EqEq]
  }

  /** Every character's slot holds the kind `EqModifierKind` gives it. */
  lemma EqModifiersSlotsAgree(c: char)
    requires IsTableChar(c)
    ensures EqModifiersSlots()[c as int] == EqModifierKind(c)
  {
  }

  method MakeEqModifiers() returns (t: ChTable)
    ensures fresh(t.values) && t.Valid()
    ensures forall c :: IsTableChar(c) ==> t.Get(c) == EqModifierKind(c)
  {
    t := new ChTable();
    t.Set('+', PlusEq);
    t.Set('-', MinusEq);
    t.Set('*', StarEq);
    t.Set('/', SlashEq);
    t.Set('%', ModEq);
    t.Set('<', LtE);
    t.Set('>', GtE);
    t.Set('!', NotEq);
    t.Set(':', ColEq);
    t.Set('=', EqEq);
    assert t.values[..] == EqModifiersSlots();
    forall c | IsTableChar(c)
      ensures t.Get(c) == EqModifierKind(c)
    {
      EqModifiersSlotsAgree(c);
      assert t.Get(c) == t.values[..][c as int];
    }
  }

  /** The slots of the `selfmodifiers` table after its `ch_ht_set` calls. */
  ghost function SelfModifiersSlots(): seq<TokenType>
  {
    seq(300, _ => Illegal)['+' as int := Inc]['-' as int := Dec]
  }

  /** Every character's slot holds the kind `SelfModifierKind` gives it. */
  lemma SelfModifiersSlotsAgree(c: char)
    requires IsTableChar(c)
    ensures SelfModifiersSlots()[c as int] == SelfModifierKind(c)
  {
  }

  method MakeSelfModifiers() returns (t: ChTable)
    ensures fresh(t.values) && t.Valid()
    ensures forall c :: IsTableChar(c) ==> t.Get(c) == SelfModifierKind(c)
  {
    t := new ChTable();
    t.Set('+', Inc);
    t.Set('-', Dec);
    assert t.values[..] == SelfModifiersSlots();
    forall c | IsTableChar(c)
      ensures t.Get(c) == SelfModifierKind(c)
    {
      SelfModifiersSlotsAgree(c);
      assert t.Get(c) == t.values[..][c as int];
    }
  }

  /** Inserting a key changes the lookup of that key only. */
  lemma TreeGetInsert(t: LexTree, k: string, v: TokenType, x: string)
    ensures TreeGet(TreeInsert(t, k, v), x) == if x == k then v else TreeGet(t, x)
  {
    if x == k {
      GetAfterInsert(t, k, v);
    } else {
      GetOtherAfterInsert(t, k, v, x);
    }
  }

  /** Two consecutive `lm_insert` calls: the two words read their kinds
      (the later one winning) and every other word reads what it did. */
  method InsertPair(m: LexMap, w1: string, k1: TokenType, w2: string, k2: TokenType)
    requires m.Valid()
    modifies m.Repr
    ensures m.Valid() && fresh(m.Repr - old(m.Repr)) && m.key.Some?
    ensures forall x :: TreeGet(m.Tree, x) == if x == w2 then k2 else if x == w1 then k1 else TreeGet(old(m.Tree), x)
  {
    ghost var t0 := m.Tree;
    ghost var r0 := m.Repr;
    m.Insert(w1, k1);
    assert fresh(m.Repr - r0);
    ghost var t1 := m.Tree;
    m.Insert(w2, k2);
    forall x
      ensures TreeGet(m.Tree, x) == if x == w2 then k2 else if x == w1 then k1 else TreeGet(t0, x)
    {
      TreeGetInsert(t0, w1, k1, x);
      TreeGetInsert(t1, w2, k2, x);
    }
  }

  /** Four of the insertions `tokenize` makes into the keyword map: the
      words `if else for while` now read their kinds and every other lookup is as before. */
  method InsertControlWords(m: LexMap)
    requires m.Valid()
    modifies m.Repr
    ensures m.Valid() && fresh(m.Repr - old(m.Repr)) && m.key.Some?
    ensures forall x :: TreeGet(m.Tree, x) == if !ControlKind(x).Illegal? then ControlKind(x) else TreeGet(old(m.Tree), x)
  {
    ghost var r0 := m.Repr;
    InsertPair(m, "if", If, "else", Else);
    assert fresh(m.Repr - r0);
    InsertPair(m, "for", For, "while", While);
  }

  /** Four of the insertions `tokenize` makes into the keyword map: the
      words `break continue fn return` now read their kinds and every other lookup is as before. */
  method InsertFlowWords(m: LexMap)
    requires m.Valid()
    modifies m.Repr
    ensures m.Valid() && fresh(m.Repr - old(m.Repr)) && m.key.Some?
    ensures forall x :: TreeGet(m.Tree, x) == if !FlowKind(x).Illegal? then FlowKind(x) else TreeGet(old(m.Tree), x)
  {
    ghost var r0 := m.Repr;
    InsertPair(m, "break", Break, "continue", Continue);
    assert fresh(m.Repr - r0);
    InsertPair(m, "fn", Fn, "return", Return);
  }

  /** Four of the insertions `tokenize` makes into the keyword map: the
      words `int bool true false` now read their kinds and every other lookup is as before. */
  method InsertValueWords(m: LexMap)
    requires m.Valid()
    modifies m.Repr
    ensures m.Valid() && fresh(m.Repr - old(m.Repr)) && m.key.Some?
    ensures forall x :: TreeGet(m.Tree, x) == if !ValueKind(x).Illegal? then ValueKind(x) else TreeGet(old(m.Tree), x)
  {
    ghost var r0 := m.Repr;
    InsertPair(m, "int", IntType, "bool", BoolType);
    assert fresh(m.Repr - r0);
    InsertPair(m, "true", True, "false", False);
  }

  /** The keyword map `tokenize` builds: the twelve reserved words, each
      mapped to its kind, and Illegal for every other word. */
  method MakeKeywords() returns (m: LexMap)
    ensures fresh(m.Repr) && m.Valid() && m.key.Some?
    ensures forall x :: TreeGet(m.Tree, x) == KeywordKind(x)
  {
    m := new LexMap();
    ghost var t0 := m.Tree;
    InsertControlWords(m);
    ghost var t1 := m.Tree;
    InsertFlowWords(m);
    ghost var t2 := m.Tree;
    InsertValueWords(m);
    forall x
      ensures TreeGet(m.Tree, x) == KeywordKind(x)
    {
      assert TreeGet(t0, x).Illegal?;
      KeywordGroupsDisjoint(x);
    }
  }

  /** The four character tables and the keyword map hold what the
      functions above say. */
  ghost predicate TablesReady(singlechars: ChTable, operators: ChTable, eqModifiers: ChTable,
                              selfModifiers: ChTable, keywords: LexMap)
    reads singlechars, operators, eqModifiers, selfModifiers, keywords, keywords.Repr
    reads singlechars.values, operators.values, eqModifiers.values, selfModifiers.values
  {
    singlechars.Valid() && operators.Valid() && eqModifiers.Valid() && selfModifiers.Valid() &&
    keywords.Valid() && keywords.key.Some? &&
    (forall c :: IsTableChar(c) ==> singlechars.Get(c) == SingleCharKind(c)) &&
    (forall c :: IsTableChar(c) ==> operators.Get(c) == OperatorKind(c)) &&
    (forall c :: IsTableChar(c) ==> eqModifiers.Get(c) == EqModifierKind(c)) &&
    (forall c :: IsTableChar(c) ==> selfModifiers.Get(c) == SelfModifierKind(c)) &&
    (forall x :: TreeGet(keywords.Tree, x) == KeywordKind(x))
  }

  /** The tables `tokenize` sets up before its loop. */
  method MakeTables() returns (singlechars: ChTable, operators: ChTable, eqModifiers: ChTable,
                               selfModifiers: ChTable, keywords: LexMap)
    ensures TablesReady(singlechars, operators, eqModifiers, selfModifiers, keywords)
  {
    singlechars := MakeSingleChars();
    operators := MakeOperators();
    eqModifiers := MakeEqModifiers();
    selfModifiers := MakeSelfModifiers();
    keywords := MakeKeywords();
  }

  /** The operator branch of the loop body: `ch` is in the `operators`
      table; a following `=` or a doubled self-modifier makes a two
      character token. */
  method ScanOperator(source: string, start: nat, line: nat, lineStart: nat,
                      operators: ChTable, eqModifiers: ChTable, selfModifiers: ChTable)
    returns (st: Step)
    requires WellFormedSource(source) && start < |source|
    requires IsTableChar(source[start]) && !OperatorKind(source[start]).Illegal?
    requires operators.Valid() && eqModifiers.Valid() && selfModifiers.Valid()
    requires forall c :: IsTableChar(c) ==> operators.Get(c) == OperatorKind(c)
    requires forall c :: IsTableChar(c) ==> eqModifiers.Get(c) == EqModifierKind(c)
    requires forall c :: IsTableChar(c) ==> selfModifiers.Get(c) == SelfModifierKind(c)
    ensures st == OperatorStep(source, start, line, lineStart)
  {
    var ch := source[start];
    var ttype: TokenType;
    var end: nat;
    if source[start + 1] == '=' {
      ttype := eqModifiers.Get(ch);
      end := start + 2;
    } else if source[start + 1] == ch && !selfModifiers.Get(ch).Illegal? {
      ttype := selfModifiers.Get(ch);
      end := start + 2;
    } else {
      ttype := operators.Get(ch);
      end := start + 1;
    }
    st := Step(Some(Token(ttype, line, lineStart, start, end)), end, line, lineStart);
  }

  /** The number and word branches of the loop body: a maximal run of
      digits, or of identifier characters looked up in the keyword map. */
  method ScanRun(source: string, start: nat, line: nat, lineStart: nat, keywords: LexMap)
    returns (st: Step)
    requires WellFormedSource(source) && start < |source|
    requires IsDigit(source[start]) || IsAlpha(source[start]) || source[start] == '_'
    requires keywords.Valid() && keywords.key.Some?
    requires forall x :: TreeGet(keywords.Tree, x) == KeywordKind(x)
    ensures st.token.Some? && st.next == st.token.value.end && st.line == line && st.lineStart == lineStart
    ensures IsDigit(source[start]) ==> st == Step(Some(Token(Number, line, lineStart, start, DigitRunEnd(source, start + 1))), DigitRunEnd(source, start + 1), line, lineStart)
    ensures !IsDigit(source[start]) ==>
      var e := IdentRunEnd(source, start + 1);
      var kw := KeywordKind(source[start..e]);
      st == Step(Some(Token(if !kw.Illegal? then kw else Identifier, line, lineStart, start, e)), e, line, lineStart)
  {
    var end := start + 1;
    var ttype: TokenType;
    if IsDigit(source[start]) {
      while IsDigit(source[end])
        invariant start < end < |source|
        invariant DigitRunEnd(source, end) == DigitRunEnd(source, start + 1)
        decreases |source| - end
      {
        end := end + 1;
      }
      ttype := Number;
    } else {
      while IsIdentChar(source[end])
        invariant start < end < |source|
        invariant IdentRunEnd(source, end) == IdentRunEnd(source, start + 1)
        decreases |source| - end
      {
        end := end + 1;
      }
      var lexeme := Substring(source, start, end);
      var kwType := keywords.Get(lexeme.value[..end - start]);
      if !kwType.Illegal? {
        ttype := kwType;
      } else {
        ttype := Identifier;
      }
    }
    st := Step(Some(Token(ttype, line, lineStart, start, end)), end, line, lineStart);
  }

  /** One pass of `tokenize`'s loop body at `start`. */
  method ScanStep(source: string, start: nat, line: nat, lineStart: nat,
                  singlechars: ChTable, operators: ChTable, eqModifiers: ChTable,
                  selfModifiers: ChTable, keywords: LexMap)
    returns (st: Step)
    requires WellFormedSource(source) && start < |source|
    requires TablesReady(singlechars, operators, eqModifiers, selfModifiers, keywords)
    ensures st == StepAt(source, start, line, lineStart)
  {
    var ch := source[start];
    if ch == ' ' {
      st := Step(None, start + 1, line, lineStart);
    } else if ch == '\n' {
      st := Step(None, start + 1, line + 1, start + 1);
    } else if ch == '#' {
      var i := start;
      while i < |source| && source[i] != '\n'
        invariant start <= i <= |source|
        invariant CommentEnd(source, i) == CommentEnd(source, start)
        decreases |source| - i
      {
        i := i + 1;
      }
      st := Step(None, i, line, lineStart);
    } else if ch == '|' || ch == '&' {
      if source[start + 1] == ch {
        st := Step(Some(Token(if ch == '|' then Or else And, line, lineStart, start, start + 2)), start + 2, line, lineStart);
      } else {
        st := Step(Some(Token(Illegal, line, lineStart, start, start + 1)), start + 1, line, lineStart);
      }
    } else if ch == EofChar {
      st := Step(Some(Token(Eof, line, lineStart, start, start + 1)), start + 1, line, lineStart);
    } else {
      assert IsTableChar(ch);
      var opType := operators.Get(ch);
      if !opType.Illegal? {
        st := ScanOperator(source, start, line, lineStart, operators, eqModifiers, selfModifiers);
      } else if !singlechars.Get(ch).Illegal? {
        st := Step(Some(Token(singlechars.Get(ch), line, lineStart, start, start + 1)), start + 1, line, lineStart);
      } else if IsDigit(ch) || IsAlpha(ch) || ch == '_' {
        st := ScanRun(source, start, line, lineStart, keywords);
      } else {
        st := Step(Some(Token(Illegal, line, lineStart, start, start + 1)), start + 1, line, lineStart);
      }
    }
  }

  /** `tokenize`: the scanning loop over `source`, classifying characters
      through the four tables and reserved words through the keyword tree. */
  method Tokenize(source: string) returns (tokens: seq<Token>)
    requires WellFormedSource(source)
    ensures tokens == Lex(source)
  {
    var singlechars, operators, eqModifiers, selfModifiers, keywords := MakeTables();

    tokens := [];
    var start: nat := 0;
    var line: nat := 1;
    var lineStart: nat := 0;
    while start < |source|
      invariant start <= |source|
      invariant tokens + LexFrom(source, start, line, lineStart) == Lex(source)
      invariant TablesReady(singlechars, operators, eqModifiers, selfModifiers, keywords)
      decreases |source| - start
    {
      var st := ScanStep(source, start, line, lineStart, singlechars, operators, eqModifiers, selfModifiers, keywords);
      LexFromStep(source, start, line, lineStart);
      ghost var rest := LexFrom(source, st.next, st.line, st.lineStart);
      if st.token.Some? {
        assert (tokens + [st.token.value]) + rest == tokens + ([st.token.value] + rest);
        tokens := tokens + [st.token.value];
      } else {
        assert [] + rest == rest;
      }
      start, line, lineStart := st.next, st.line, st.lineStart;
    }
  }

  // ---------------------------------------------------------------------
  // Properties of the scan

  /** Tokens with non-empty extents, each ending at or before the next one
      starts, all within `[lo, hi]`. */
  ghost predicate InOrder(toks: seq<Token>, lo: nat, hi: nat)
  {
    (forall i :: 0 <= i < |toks| ==> lo <= toks[i].start < toks[i].end <= hi) &&
    (forall i :: 0 <= i < |toks| - 1 ==> toks[i].end <= toks[i + 1].start)
  }

  /** Every token of one step starts where the step starts and ends where
      it stops. */
  lemma StepExtent(src: string, s: nat, line: nat, ls: nat)
    requires WellFormedSource(src) && s < |src|
    ensures var st := StepAt(src, s, line, ls);
      st.token.Some? ==> st.token.value.start == s && st.token.value.end == st.next
  {
  }

  /** A token followed by tokens that start after it keeps the order. */
  lemma InOrderCons(t: Token, rest: seq<Token>, lo: nat, hi: nat)
    requires lo <= t.start < t.end <= hi && InOrder(rest, t.end, hi)
    ensures InOrder([t] + rest, lo, hi)
  {
    var toks := [t] + rest;
    forall i | 0 <= i < |toks| - 1
      ensures toks[i].end <= toks[i + 1].start
    {
      if i > 0 {
        assert toks[i] == rest[i - 1] && toks[i + 1] == rest[i];
      }
    }
  }

  /** Tokens starting at a later position are also within a wider range. */
  lemma InOrderWiden(toks: seq<Token>, lo: nat, lo': nat, hi: nat)
    requires lo <= lo' && InOrder(toks, lo', hi)
    ensures InOrder(toks, lo, hi)
  {
  }

  /** The tokens from `s` on are in source order, do not overlap, and each
      covers at least one character. */
  lemma {:induction false} LexFromInOrder(src: string, s: nat, line: nat, ls: nat)
    requires WellFormedSource(src) && s <= |src|
    ensures InOrder(LexFrom(src, s, line, ls), s, |src|)
    decreases |src| - s
  {
    if s < |src| {
      var st := StepAt(src, s, line, ls);
      StepExtent(src, s, line, ls);
      LexFromInOrder(src, st.next, st.line, st.lineStart);
      LexFromStep(src, s, line, ls);
      var rest := LexFrom(src, st.next, st.line, st.lineStart);
      if st.token.Some? {
        InOrderCons(st.token.value, rest, s, |src|);
      } else {
        assert [] + rest == rest;
        InOrderWiden(rest, s, st.next, |src|);
      }
    }
  }

  /** Tokens of the whole source are in order and non-overlapping. */
  lemma LexInOrder(src: string)
    requires WellFormedSource(src)
    ensures InOrder(Lex(src), 0, |src|)
  {
    LexFromInOrder(src, 0, 1, 0);
  }

  /** The number of newline characters in `s`. */
  function Newlines(s: string): nat
  {
    if s == [] then 0 else Newlines(s[..|s| - 1]) + (if s[|s| - 1] == '\n' then 1 else 0)
  }

  /** The position just after the last newline before `i`, or 0. */
  function LineStartOf(src: string, i: nat): (r: nat)
    requires i <= |src|
    ensures r <= i
  {
    if i == 0 then 0 else if src[i - 1] == '\n' then i else LineStartOf(src, i - 1)
  }

  /** The line counter and line start of `tokenize` at position `s`. */
  ghost predicate LineState(src: string, s: nat, line: nat, ls: nat)
    requires s <= |src|
  {
    line == 1 + Newlines(src[..s]) && ls == LineStartOf(src, s)
  }

  /** Skipping characters other than newlines keeps the line state. */
  lemma {:induction false} NoNewlineRun(src: string, i: nat, j: nat)
    requires i <= j <= |src|
    requires forall k :: i <= k < j ==> src[k] != '\n'
    ensures Newlines(src[..j]) == Newlines(src[..i]) && LineStartOf(src, j) == LineStartOf(src, i)
    decreases j - i
  {
    if i < j {
      NoNewlineRun(src, i, j - 1);
      assert src[..j][..j - 1] == src[..j - 1];
    }
  }

  /** One step carries a correct line state to its next position. */
  lemma StepLines(src: string, s: nat, line: nat, ls: nat)
    requires WellFormedSource(src) && s < |src| && LineState(src, s, line, ls)
    ensures var st := StepAt(src, s, line, ls); LineState(src, st.next, st.line, st.lineStart)
  {
    var st := StepAt(src, s, line, ls);
    if src[s] == '\n' {
      assert src[..s + 1][..s] == src[..s];
    } else if src[s] == '#' {
      NoNewlineRun(src, s, st.next);
    } else {
      forall k | s <= k < st.next
        ensures src[k] != '\n'
      {
        if k > s && IsDigit(src[s]) {
          assert IsDigit(src[k]);
        } else if k > s && (IsAlpha(src[s]) || src[s] == '_') && OperatorKind(src[s]).Illegal? && SingleCharKind(src[s]).Illegal? {
          assert IsIdentChar(src[k]);
        }
      }
      NoNewlineRun(src, s, st.next);
    }
  }

  /** Every token from `s` on records its line: one more than the number of
      newlines before it, and the position after the last of them. */
  lemma {:induction false} LexFromLines(src: string, s: nat, line: nat, ls: nat)
    requires WellFormedSource(src) && s <= |src| && LineState(src, s, line, ls)
    ensures forall t :: t in LexFrom(src, s, line, ls) ==>
      t.start < |src| && LineState(src, t.start, t.ln, t.lnStart)
    decreases |src| - s
  {
    if s < |src| {
      var st := StepAt(src, s, line, ls);
      StepExtent(src, s, line, ls);
      StepLines(src, s, line, ls);
      LexFromLines(src, st.next, st.line, st.lineStart);
    }
  }

  /** Every token of the source records its line and line start. */
  lemma LexLines(src: string)
    requires WellFormedSource(src)
    ensures forall t :: t in Lex(src) ==>
      t.start < |src| && t.ln == 1 + Newlines(src[..t.start]) && t.lnStart == LineStartOf(src, t.start)
  {
    assert src[..0] == [];
    LexFromLines(src, 0, 1, 0);
  }

  // ---------------------------------------------------------------------
  // What each token's text is

  /** The fixed text of a punctuation or operator kind; empty for the kinds
      whose text varies. */
  function Spelling(k: TokenType): string
  {
    match k
    case Comma => "," case Semicolon => ";"
    case LBrace => "{" case RBrace => "}" case LParen => "(" case RParen => ")"
    case Plus => "+" case Minus => "-" case Star => "*" case Slash => "/" case Mod => "%"
    case Inc => "++" case Dec => "--"
    case Colon => ":" case Eq => "="
    case ColEq => ":=" case PlusEq => "+=" case MinusEq => "-=" case StarEq => "*="
    case SlashEq => "/=" case ModEq => "%="
    case Gt => ">" case Lt => "<" case GtE => ">=" case LtE => "<="
    case EqEq => "==" case NotEq => "!=" case Not => "!"
    case Or => "||" case And => "&&"
    case _ => ""
  }

  /** The kinds of the twelve reserved words. */
  predicate IsKeywordKind(k: TokenType)
  {
    k.If? || k.Else? || k.For? || k.While? || k.Break? || k.Continue? ||
    k.Fn? || k.Return? || k.IntType? || k.BoolType? || k.True? || k.False?
  }

  /** A character that starts a width-one Illegal token: a lone `|` or `&`,
      or a character no rule of the scanner accepts. */
  predicate IllegalStart(c: char)
  {
    c == '|' || c == '&' ||
    (c != ' ' && c != '\n' && c != '#' && c != EofChar && OperatorKind(c).Illegal? &&
     SingleCharKind(c).Illegal? && !IsIdentChar(c))
  }

  /** What the text `src[t.start..t.end]` of a token of kind `t.ttype` is:
      numbers and words are maximal runs, a word is a keyword exactly when
      its kind says so, and every other kind has its fixed spelling. */
  ghost predicate TokenFits(src: string, t: Token)
    requires t.start < t.end <= |src|
  {
    var text := src[t.start..t.end];
    match t.ttype
    case Number =>
      (forall k :: t.start <= k < t.end ==> IsDigit(src[k])) &&
      t.end < |src| && !IsDigit(src[t.end])
    case Identifier =>
      (IsAlpha(text[0]) || text[0] == '_') &&
      (forall k :: t.start <= k < t.end ==> IsIdentChar(src[k])) &&
      t.end < |src| && !IsIdentChar(src[t.end]) && KeywordKind(text).Illegal?
    case Eof => text == [EofChar]
    case Illegal => |text| == 1 && IllegalStart(text[0])
    case _ =>
      if IsKeywordKind(t.ttype) then
        KeywordKind(text) == t.ttype && t.end < |src| && !IsIdentChar(src[t.end])
      else
        Spelling(t.ttype) != "" && text == Spelling(t.ttype)
  }

  /** Operator characters spell their one- and two-character tokens. */
  lemma OperatorSpelling(c: char)
    requires !OperatorKind(c).Illegal?
    ensures Spelling(OperatorKind(c)) == [c]
    ensures Spelling(EqModifierKind(c)) == [c, '=']
    ensures !SelfModifierKind(c).Illegal? ==> Spelling(SelfModifierKind(c)) == [c, c]
    ensures !EqModifierKind(c).Illegal? && !IsKeywordKind(EqModifierKind(c)) && !IsKeywordKind(OperatorKind(c))
    ensures !IsKeywordKind(SelfModifierKind(c))
  {
    match c
    case '+' => case '-' => case '*' => case '/' => case '%' =>
    case '<' => case '>' => case '!' => case ':' => case '=' =>
  }

  /** Single characters spell their tokens. */
  lemma SingleCharSpelling(c: char)
    requires !SingleCharKind(c).Illegal?
    ensures Spelling(SingleCharKind(c)) == [c] && !IsKeywordKind(SingleCharKind(c))
  {
  }

  /** A word is a keyword kind exactly when the keyword map says so. */
  lemma KeywordKinds(s: string)
    ensures KeywordKind(s).Illegal? || IsKeywordKind(KeywordKind(s))
  {
  }

  /** A token of a fixed-spelling kind fits when its text is that spelling. */
  lemma FixedFits(src: string, t: Token)
    requires t.start < t.end <= |src|
    requires t.ttype !in {Number, Identifier, Eof, Illegal} && !IsKeywordKind(t.ttype)
    requires Spelling(t.ttype) != "" && src[t.start..t.end] == Spelling(t.ttype)
    ensures TokenFits(src, t)
  {
  }

  /** The operator tokens of one step fit their text. */
  lemma OperatorFits(src: string, s: nat, line: nat, ls: nat)
    requires WellFormedSource(src) && s < |src| - 1
    requires var ch := src[s];
      ch !in {' ', '\n', '#', '|', '&', EofChar} && !OperatorKind(ch).Illegal?
    ensures var t := StepAt(src, s, line, ls).token.value; TokenFits(src, t)
  {
    var ch := src[s];
    var t := StepAt(src, s, line, ls).token.value;
    OperatorSpelling(ch);
    if t.end == s + 2 {
      assert src[s..s + 2] == [ch, src[s + 1]];
    } else {
      assert src[s..s + 1] == [ch];
    }
    FixedFits(src, t);
  }

  /** The number and word tokens of one step fit their text. */
  lemma RunFits(src: string, s: nat, line: nat, ls: nat)
    requires WellFormedSource(src) && s < |src|
    requires var ch := src[s];
      OperatorKind(ch).Illegal? && SingleCharKind(ch).Illegal? && IsIdentChar(ch)
    ensures var t := StepAt(src, s, line, ls).token.value; TokenFits(src, t)
  {
    var t := StepAt(src, s, line, ls).token.value;
    if !IsDigit(src[s]) {
      KeywordKinds(src[s..t.end]);
    }
  }

  /** The token of one step fits its text. */
  lemma StepFits(src: string, s: nat, line: nat, ls: nat)
    requires WellFormedSource(src) && s < |src|
    ensures var st := StepAt(src, s, line, ls);
      st.token.Some? ==> st.token.value.start < st.token.value.end <= |src| && TokenFits(src, st.token.value)
  {
    var st := StepAt(src, s, line, ls);
    StepExtent(src, s, line, ls);
    var ch := src[s];
    if st.token.Some? {
      var t := st.token.value;
      if ch == '|' || ch == '&' {
        if !t.ttype.Illegal? {
          FixedFits(src, t);
        }
      } else if ch == EofChar {
      } else if !OperatorKind(ch).Illegal? {
        OperatorFits(src, s, line, ls);
      } else if !SingleCharKind(ch).Illegal? {
        SingleCharSpelling(ch);
        assert src[s..s + 1] == [ch];
        FixedFits(src, t);
      } else if IsIdentChar(ch) {
        RunFits(src, s, line, ls);
      }
    }
  }

  /** Every token from `s` on fits its text. */
  lemma {:induction false} LexFromFits(src: string, s: nat, line: nat, ls: nat)
    requires WellFormedSource(src) && s <= |src|
    ensures forall t :: t in LexFrom(src, s, line, ls) ==> t.start < t.end <= |src| && TokenFits(src, t)
    decreases |src| - s
  {
    if s < |src| {
      var st := StepAt(src, s, line, ls);
      StepFits(src, s, line, ls);
      LexFromStep(src, s, line, ls);
      LexFromFits(src, st.next, st.line, st.lineStart);
    }
  }

  /** Every token of the source fits its text: in particular no token
      starts at a space, a newline or a `#`. */
  lemma LexFits(src: string)
    requires WellFormedSource(src)
    ensures forall t :: t in Lex(src) ==> t.start < t.end <= |src| && TokenFits(src, t)
  {
    LexFromFits(src, 0, 1, 0);
  }

  /** A `#` comment produces nothing: the scan resumes at the newline that
      ends it, with the same line state. */
  lemma CommentSkipped(src: string, s: nat, line: nat, ls: nat)
    requires WellFormedSource(src) && s < |src| && src[s] == '#'
    ensures LexFrom(src, s, line, ls) == LexFrom(src, CommentEnd(src, s), line, ls)
  {
    LexFromStep(src, s, line, ls);
  }

  // ---------------------------------------------------------------------
  // The end of file token

  /** The last line of the source holds no `#`. */
  ghost predicate NoTrailingComment(src: string)
    requires |src| > 0
  {
    forall k :: LineStartOf(src, |src| - 1) <= k < |src| ==> src[k] != '#'
  }

  /** A line start after position 0 follows a newline. */
  lemma LineStartAfterNewline(src: string, i: nat)
    requires i <= |src|
    ensures LineStartOf(src, i) > 0 ==> src[LineStartOf(src, i) - 1] == '\n'
    ensures forall k :: LineStartOf(src, i) <= k < i ==> src[k] != '\n'
  {
  }

  /** Before the final character no step jumps past it, unless a comment on
      the last line swallows it. */
  lemma StepBeforeEnd(src: string, s: nat, line: nat, ls: nat)
    requires WellFormedSource(src) && s < |src| - 1 && NoTrailingComment(src)
    ensures StepAt(src, s, line, ls).next <= |src| - 1
  {
    if src[s] == '#' {
      var l := LineStartOf(src, |src| - 1);
      LineStartAfterNewline(src, |src| - 1);
      assert s < l;
      assert src[l - 1] == '\n';
    }
  }

  /** Unless the last line holds a comment, the scan ends with the Eof
      token of the final EOF character. */
  lemma {:induction false} LexFromEndsWithEof(src: string, s: nat, line: nat, ls: nat)
    requires WellFormedSource(src) && s < |src| && NoTrailingComment(src)
    ensures var toks := LexFrom(src, s, line, ls);
      |toks| > 0 && toks[|toks| - 1].ttype == Eof &&
      toks[|toks| - 1].start == |src| - 1 && toks[|toks| - 1].end == |src|
    decreases |src| - s
  {
    var st := StepAt(src, s, line, ls);
    LexFromStep(src, s, line, ls);
    if s == |src| - 1 {
      assert LexFrom(src, st.next, st.line, st.lineStart) == [];
    } else {
      StepBeforeEnd(src, s, line, ls);
      LexFromEndsWithEof(src, st.next, st.line, st.lineStart);
    }
  }

  /** The whole scan ends with the Eof token when the last line has no
      comment. */
  lemma LexEndsWithEof(src: string)
    requires WellFormedSource(src) && NoTrailingComment(src)
    ensures |Lex(src)| > 0 && Lex(src)[|Lex(src)| - 1].ttype == Eof
    ensures Lex(src)[|Lex(src)| - 1].start == |src| - 1
  {
    LexFromEndsWithEof(src, 0, 1, 0);
  }

  /** A comment on the last line runs to the end of the buffer and takes
      the EOF character with it: the scan of `1 #c` has no Eof token. */
  lemma TrailingCommentSwallowsEof()
    ensures WellFormedSource("1 #c" + [EofChar])
    ensures Lex("1 #c" + [EofChar]) == [Token(Number, 1, 0, 0, 1)]
  {
    var src := "1 #c" + [EofChar];
    assert WellFormedSource(src);
    LexFromStep(src, 0, 1, 0);
    LexFromStep(src, 1, 1, 0);
    assert DigitRunEnd(src, 1) == 1;
    LexFromStep(src, 2, 1, 0);
    assert CommentEnd(src, 2) == 5;
  }
}
