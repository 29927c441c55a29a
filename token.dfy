/** Tokens and the lookup tables of include/token.c: the token kinds, the
    keyword binary search tree (`LexMap`) and the direct-index tables. */
module Tokens {
  import opened Utils

  /** The token kinds, in the order of the C enum (the order gives the slot
      of a kind in the per-kind tables). */
  datatype TokenType =
    | Illegal | Eof
    | Comma | Semicolon
    | LBrace | RBrace | LParen | RParen
    | Plus | Minus | Star | Slash | Mod
    | Inc | Dec
    | Number | True | False | Text
    | Identifier | Colon
    | Eq | ColEq | PlusEq | MinusEq | StarEq | SlashEq | ModEq
    | Gt | Lt | GtE | LtE
    | EqEq | NotEq
    | Not
    | Or | And
    | If | Else | While | For
    | Break | Continue
    | Fn | Return
    | IntType | BoolType | StringType
    | Println

  /** Number of token kinds: the size of the per-kind tables. */
  const KindCount: nat := 49

  /** The numeric value of a kind in the C enum. */
  function Ord(t: TokenType): (n: nat)
    ensures n < KindCount
  {
    match t
    case Illegal => 0 case Eof => 1
    case Comma => 2 case Semicolon => 3
    case LBrace => 4 case RBrace => 5 case LParen => 6 case RParen => 7
    case Plus => 8 case Minus => 9 case Star => 10 case Slash => 11 case Mod => 12
    case Inc => 13 case Dec => 14
    case Number => 15 case True => 16 case False => 17 case Text => 18
    case Identifier => 19 case Colon => 20
    case Eq => 21 case ColEq => 22 case PlusEq => 23 case MinusEq => 24
    case StarEq => 25 case SlashEq => 26 case ModEq => 27
    case Gt => 28 case Lt => 29 case GtE => 30 case LtE => 31
    case EqEq => 32 case NotEq => 33
    case Not => 34
    case Or => 35 case And => 36
    case If => 37 case Else => 38 case While => 39 case For => 40
    case Break => 41 case Continue => 42
    case Fn => 43 case Return => 44
    case IntType => 45 case BoolType => 46 case StringType => 47
    case Println => 48
  }

  /** The kind with a given enum value (inverse of `Ord`). */
  function KindOf(n: nat): TokenType
    requires n < KindCount
  {
    match n
    case 0 => Illegal case 1 => Eof case 2 => Comma case 3 => Semicolon
    case 4 => LBrace case 5 => RBrace case 6 => LParen case 7 => RParen
    case 8 => Plus case 9 => Minus case 10 => Star case 11 => Slash
    case 12 => Mod case 13 => Inc case 14 => Dec case 15 => Number
    case 16 => True case 17 => False case 18 => Text case 19 => Identifier
    case 20 => Colon case 21 => Eq case 22 => ColEq case 23 => PlusEq
    case 24 => MinusEq case 25 => StarEq case 26 => SlashEq case 27 => ModEq
    case 28 => Gt case 29 => Lt case 30 => GtE case 31 => LtE case 32 => EqEq
    case 33 => NotEq case 34 => Not case 35 => Or case 36 => And case 37 => If
    case 38 => Else case 39 => While case 40 => For case 41 => Break
    case 42 => Continue case 43 => Fn case 44 => Return case 45 => IntType
    case 46 => BoolType case 47 => StringType case _ => Println
  }

  lemma KindOfOrd(t: TokenType)
    ensures KindOf(Ord(t)) == t
  {
    match t
    case Illegal => case Eof => case Comma => case Semicolon => case LBrace =>
    case RBrace => case LParen => case RParen => case Plus => case Minus =>
    case Star => case Slash => case Mod => case Inc => case Dec =>
    case Number => case True => case False => case Text => case Identifier =>
    case Colon => case Eq => case ColEq => case PlusEq => case MinusEq =>
    case StarEq => case SlashEq => case ModEq => case Gt => case Lt =>
    case GtE => case LtE => case EqEq => case NotEq => case Not => case Or =>
    case And => case If => case Else => case While => case For => case Break =>
    case Continue => case Fn => case Return => case IntType => case BoolType =>
    case StringType => case Println =>
  }

  /** Different kinds occupy different table slots. */
  lemma OrdInjective(t: TokenType, u: TokenType)
    ensures Ord(t) == Ord(u) <==> t == u
  {
    KindOfOrd(t);
    KindOfOrd(u);
  }

  /** A token: its kind, line number, the offset where its line starts, and
      the half-open source range [start, end) it covers. */
  datatype Token = Token(ttype: TokenType, ln: nat, lnStart: nat, start: nat, end: nat)

  // ---------------------------------------------------------------------
  // lm_cmp: comparison of two NUL-free C strings

  /** Lexicographic order on signed character codes, a proper prefix first. */
  function Compare(a: string, b: string): (r: int)
    ensures r == -1 || r == 0 || r == 1
  {
    if |a| == 0 || |b| == 0 then
      (if |a| < |b| then -1 else if |a| > |b| then 1 else 0)
    else if CharCode(a[0]) < CharCode(b[0]) then -1
    else if CharCode(a[0]) > CharCode(b[0]) then 1
    else Compare(a[1..], b[1..])
  }

  /** `lm_cmp`: the character loop up to the shorter length, then the lengths. */
  method LmCmp(key1: string, key2: string) returns (r: int)
    ensures r == Compare(key1, key2)
  {
    var len1 := |key1|;
    var len2 := |key2|;
    var minLen := Min(len1, len2);
    var i := 0;
    while i < minLen
      invariant 0 <= i <= minLen
      invariant Compare(key1, key2) == Compare(key1[i..], key2[i..])
    {
      if CharCode(key1[i]) < CharCode(key2[i]) {
        return -1;
      }
      if CharCode(key1[i]) > CharCode(key2[i]) {
        return 1;
      }
      assert key1[i..][1..] == key1[i + 1..] && key2[i..][1..] == key2[i + 1..];
      i := i + 1;
    }
    if len1 < len2 {
      return -1;
    }
    if len1 > len2 {
      return 1;
    }
    return 0;
  }

  /** `lm_cmp` returns 0 exactly for equal strings. */
  lemma {:induction false} CompareZeroIff(a: string, b: string)
    ensures Compare(a, b) == 0 <==> a == b
  {
    if |a| > 0 && |b| > 0 {
      CharCodeInjective(a[0], b[0]);
      CompareZeroIff(a[1..], b[1..]);
      if a[0] == b[0] && a[1..] == b[1..] {
        assert a == [a[0]] + a[1..] && b == [b[0]] + b[1..];
      }
    }
  }

  /** Swapping the arguments of `lm_cmp` negates the result. */
  lemma {:induction false} CompareAntisymmetric(a: string, b: string)
    ensures Compare(a, b) == -Compare(b, a)
  {
    if |a| > 0 && |b| > 0 && CharCode(a[0]) == CharCode(b[0]) {
      CompareAntisymmetric(a[1..], b[1..]);
    }
  }

  /** A proper prefix compares smaller than the longer string. */
  lemma {:induction false} ComparePrefix(a: string, b: string)
    requires |a| < |b| && a == b[..|a|]
    ensures Compare(a, b) == -1
  {
    if |a| > 0 {
      assert a[0] == b[0];
      assert a[1..] == b[1..][..|a| - 1];
      ComparePrefix(a[1..], b[1..]);
    }
  }

  // ---------------------------------------------------------------------
  // The keyword tree: its abstract value and the `LexMap` nodes

  /** The abstract value of a `LexMap`: a binary tree of (key, kind) nodes. */
  datatype LexTree = Leaf | Node(key: string, ttype: TokenType, left: LexTree, right: LexTree)

  /** `lm_insert` on the abstract tree: greater keys go right, smaller keys
      go left, an equal key has its kind overwritten. */
  function TreeInsert(t: LexTree, lex: string, ttype: TokenType): LexTree
  {
    match t
    case Leaf => Node(lex, ttype, Leaf, Leaf)
    case Node(k, v, l, r) =>
      var cmp := Compare(k, lex);
      if cmp == -1 then Node(k, v, l, TreeInsert(r, lex, ttype))
      else if cmp == 1 then Node(k, v, TreeInsert(l, lex, ttype), r)
      else Node(k, ttype, l, r)
  }

  /** `lm_get` on the abstract tree: the kind stored under `lex`, Illegal if
      the search reaches an empty child. */
  function TreeGet(t: LexTree, lex: string): TokenType
  {
    match t
    case Leaf => Illegal
    case Node(k, v, l, r) =>
      var cmp := Compare(k, lex);
      if cmp == -1 then TreeGet(r, lex)
      else if cmp == 1 then TreeGet(l, lex)
      else v
  }

  function Keys(t: LexTree): set<string>
  {
    match t
    case Leaf => {}
    case Node(k, _, l, r) => {k} + Keys(l) + Keys(r)
  }

  /** The ordering `lm_insert` maintains: every key of a left subtree compares
      smaller than the node's key, every key of a right subtree greater. */
  ghost predicate IsBST(t: LexTree)
  {
    match t
    case Leaf => true
    case Node(k, _, l, r) =>
      (forall x :: x in Keys(l) ==> Compare(k, x) == 1) &&
      (forall x :: x in Keys(r) ==> Compare(k, x) == -1) &&
      IsBST(l) && IsBST(r)
  }

  /** The tree with every kind erased: its shape and keys only. */
  function Shape(t: LexTree): LexTree
  {
    match t
    case Leaf => Leaf
    case Node(k, _, l, r) => Node(k, Illegal, Shape(l), Shape(r))
  }

  /** Inserting adds exactly the inserted key. */
  lemma {:induction false} InsertKeys(t: LexTree, lex: string, ttype: TokenType)
    ensures Keys(TreeInsert(t, lex, ttype)) == Keys(t) + {lex}
  {
    match t
    case Leaf =>
    case Node(k, v, l, r) =>
      CompareZeroIff(k, lex);
      var cmp := Compare(k, lex);
      if cmp == -1 {
        InsertKeys(r, lex, ttype);
      } else if cmp == 1 {
        InsertKeys(l, lex, ttype);
      }
  }

  /** `lm_insert` keeps the search-tree ordering. */
  lemma {:induction false} InsertKeepsOrder(t: LexTree, lex: string, ttype: TokenType)
    requires IsBST(t)
    ensures IsBST(TreeInsert(t, lex, ttype))
  {
    match t
    case Leaf =>
    case Node(k, v, l, r) =>
      var cmp := Compare(k, lex);
      if cmp == -1 {
        InsertKeys(r, lex, ttype);
        InsertKeepsOrder(r, lex, ttype);
      } else if cmp == 1 {
        InsertKeys(l, lex, ttype);
        InsertKeepsOrder(l, lex, ttype);
      }
  }

  /** After inserting `lex`, looking it up yields the kind just inserted. */
  lemma {:induction false} GetAfterInsert(t: LexTree, lex: string, ttype: TokenType)
    ensures TreeGet(TreeInsert(t, lex, ttype), lex) == ttype
  {
    match t
    case Leaf =>
      CompareZeroIff(lex, lex);
    case Node(k, v, l, r) =>
      var cmp := Compare(k, lex);
      if cmp == -1 {
        GetAfterInsert(r, lex, ttype);
      } else if cmp == 1 {
        GetAfterInsert(l, lex, ttype);
      }
  }

  /** Inserting `lex` does not change the lookup of any other key. */
  lemma {:induction false} GetOtherAfterInsert(t: LexTree, lex: string, ttype: TokenType, other: string)
    requires other != lex
    ensures TreeGet(TreeInsert(t, lex, ttype), other) == TreeGet(t, other)
  {
    match t
    case Leaf =>
      CompareZeroIff(lex, other);
    case Node(k, v, l, r) =>
      CompareZeroIff(k, lex);
      CompareZeroIff(k, other);
      var cmp := Compare(k, lex);
      if cmp == -1 {
        GetOtherAfterInsert(r, lex, ttype, other);
      } else if cmp == 1 {
        GetOtherAfterInsert(l, lex, ttype, other);
      }
  }

  /** In an ordered tree a key that is absent is looked up as Illegal. */
  lemma {:induction false} GetAbsent(t: LexTree, lex: string)
    requires IsBST(t) && lex !in Keys(t)
    ensures TreeGet(t, lex) == Illegal
  {
    match t
    case Leaf =>
    case Node(k, v, l, r) =>
      CompareZeroIff(k, lex);
      var cmp := Compare(k, lex);
      if cmp == -1 {
        GetAbsent(r, lex);
      } else if cmp == 1 {
        GetAbsent(l, lex);
      }
  }

  /** Re-inserting a key already in an ordered tree leaves its shape (keys
      and links) unchanged: only the stored kind is overwritten. */
  lemma {:induction false} ReinsertKeepsShape(t: LexTree, lex: string, ttype: TokenType)
    requires IsBST(t) && lex in Keys(t)
    ensures Shape(TreeInsert(t, lex, ttype)) == Shape(t)
  {
    match t
    case Leaf =>
    case Node(k, v, l, r) =>
      CompareZeroIff(k, lex);
      CompareAntisymmetric(k, lex);
      var cmp := Compare(k, lex);
      if cmp == -1 {
        ReinsertKeepsShape(r, lex, ttype);
      } else if cmp == 1 {
        ReinsertKeepsShape(l, lex, ttype);
      }
  }

  /** One node of the keyword map. The root starts with a NULL key (an empty
      map); every other node is created holding a key. */
  class LexMap {
    var key: Option<string>
    var ttype: TokenType
    var left: LexMap?
    var right: LexMap?
    ghost var Tree: LexTree
    ghost var Repr: set<object>

    ghost predicate Valid()
      reads this, Repr
      decreases Repr
    {
      this in Repr &&
      (key.None? ==> left == null && right == null && Tree == Leaf) &&
      (key.Some? ==> Tree.Node? && Tree.key == key.value && Tree.ttype == ttype) &&
      (left != null ==>
        left in Repr && left.Repr <= Repr && this !in left.Repr &&
        left.Valid() && left.key.Some? && Tree.Node? && Tree.left == left.Tree) &&
      (left == null && Tree.Node? ==> Tree.left == Leaf) &&
      (right != null ==>
        right in Repr && right.Repr <= Repr && this !in right.Repr &&
        right.Valid() && right.key.Some? && Tree.Node? && Tree.right == right.Tree) &&
      (right == null && Tree.Node? ==> Tree.right == Leaf) &&
      (left != null && right != null ==> left.Repr !! right.Repr)
    }

    /** An empty root: `{.key = NULL, .left = NULL, .right = NULL}`. */
    constructor ()
      ensures Valid() && fresh(Repr)
      ensures Tree == Leaf && key.None?
    {
      key := None;
      ttype := Illegal;
      left := null;
      right := null;
      Tree := Leaf;
      Repr := {this};
    }

    /** A node allocated by `lm_insert` for a new key. */
    constructor Single(lex: string, t: TokenType)
      ensures Valid() && fresh(Repr)
      ensures Tree == Node(lex, t, Leaf, Leaf) && key == Some(lex)
    {
      key := Some(lex);
      ttype := t;
      left := null;
      right := null;
      Tree := Node(lex, t, Leaf, Leaf);
      Repr := {this};
    }

    /** `lm_insert`: an empty root takes the key; otherwise walk right for a
        greater key and left for a smaller one, hanging a new node on the
        first missing child, or overwrite the kind of an equal key. */
    method Insert(lex: string, t: TokenType)
      requires Valid()
      modifies Repr
      ensures Valid() && fresh(Repr - old(Repr))
      ensures Tree == TreeInsert(old(Tree), lex, t)
      ensures key.Some?
      decreases Repr, 1
    {
      if key.None? {
        key := Some(lex);
        ttype := t;
        Tree := Node(lex, t, Leaf, Leaf);
        return;
      }
      var cmp := LmCmp(key.value, lex);
      if cmp == -1 {
        InsertRight(lex, t);
      } else if cmp == 1 {
        InsertLeft(lex, t);
      } else {
        Overwrite(lex, t);
      }
    }

    /** The branch of `lm_insert` for a key equal to this node's. */
    method Overwrite(lex: string, t: TokenType)
      requires Valid() && key.Some? && Compare(key.value, lex) == 0
      modifies this
      ensures Valid() && Repr == old(Repr) && key.Some?
      ensures Tree == TreeInsert(old(Tree), lex, t)
    {
      ttype := t;
      Tree := Tree.(ttype := t);
    }

    /** The branch of `lm_insert` for a key greater than this node's. */
    method InsertRight(lex: string, t: TokenType)
      requires Valid() && key.Some? && Compare(key.value, lex) == -1
      modifies Repr
      ensures Valid() && fresh(Repr - old(Repr)) && key.Some?
      ensures Tree == old(Tree).(right := TreeInsert(old(Tree).right, lex, t))
      decreases Repr, 0
    {
      if right == null {
        var node := new LexMap.Single(lex, t);
        right := node;
        Repr := Repr + node.Repr;
        Tree := Tree.(right := node.Tree);
      } else {
        right.Insert(lex, t);
        Repr := Repr + right.Repr;
        Tree := Tree.(right := right.Tree);
      }
    }

    /** The branch of `lm_insert` for a key smaller than this node's. */
    method InsertLeft(lex: string, t: TokenType)
      requires Valid() && key.Some? && Compare(key.value, lex) == 1
      modifies Repr
      ensures Valid() && fresh(Repr - old(Repr)) && key.Some?
      ensures Tree == old(Tree).(left := TreeInsert(old(Tree).left, lex, t))
      decreases Repr, 0
    {
      if left == null {
        var node := new LexMap.Single(lex, t);
        left := node;
        Repr := Repr + node.Repr;
        Tree := Tree.(left := node.Tree);
      } else {
        left.Insert(lex, t);
        Repr := Repr + left.Repr;
        Tree := Tree.(left := left.Tree);
      }
    }

    /** `lm_get` from a node holding a key (a NULL child yields Illegal). */
    function Get(lex: string): (r: TokenType)
      reads Repr
      requires Valid() && key.Some?
      ensures r == TreeGet(Tree, lex)
      decreases Repr
    {
      var cmp := Compare(key.value, lex);
      if cmp == -1 then (if right == null then Illegal else right.Get(lex))
      else if cmp == 1 then (if left == null then Illegal else left.Get(lex))
      else ttype
    }
  }

  // ---------------------------------------------------------------------
  // Direct-index tables

  /** `TTHashTable`: a preview text per token kind (NULL where unset). */
  class TTTable {
    var values: array<Option<string>>

    ghost predicate Valid()
      reads this
    {
      values.Length == KindCount
    }

    /** `new_tt_ht`: every slot NULL. */
    constructor ()
      ensures Valid() && fresh(values)
      ensures forall t :: Get(t) == None
    {
      values := new Option<string>[KindCount](_ => None);
    }

    /** `tt_ht_get`. */
    function Get(t: TokenType): Option<string>
      reads this, values
      requires Valid()
    {
      values[Ord(t)]
    }

    /** `tt_ht_set`: stores a copy of `lexem` in the slot of `t`. */
    method Set(t: TokenType, lexem: string)
      requires Valid()
      modifies values
      ensures Valid()
      ensures Get(t) == Some(lexem)
      ensures forall u :: u != t ==> Get(u) == old(Get(u))
    {
      values[Ord(t)] := Some(lexem);
      forall u | u != t
        ensures Get(u) == old(Get(u))
      {
        OrdInjective(t, u);
      }
    }
  }

  /** `TTIntHashTable`: an integer per token kind (precedences, flags). */
  class TTIntTable {
    var values: array<int>

    ghost predicate Valid()
      reads this
    {
      values.Length == KindCount
    }

    /** `new_tt_int_ht`: the initialiser `{-1}` sets slot 0 (Illegal) to -1
        and every other slot to 0. */
    constructor ()
      ensures Valid() && fresh(values)
      ensures Get(Illegal) == -1
      ensures forall t :: t != Illegal ==> Get(t) == 0
    {
      values := new int[KindCount](i => if i == 0 then -1 else 0);
      new;
      forall t | t != Illegal
        ensures Get(t) == 0
      {
        OrdInjective(t, Illegal);
      }
    }

    /** `tt_int_ht_get`. */
    function Get(t: TokenType): int
      reads this, values
      requires Valid()
    {
      values[Ord(t)]
    }

    /** `tt_int_ht_set`. */
    method Set(t: TokenType, v: int)
      requires Valid()
      modifies values
      ensures Valid()
      ensures Get(t) == v
      ensures forall u :: u != t ==> Get(u) == old(Get(u))
    {
      values[Ord(t)] := v;
      forall u | u != t
        ensures Get(u) == old(Get(u))
      {
        OrdInjective(t, u);
      }
    }
  }

  /** Largest character code the character-indexed tables accept: a C `char`
      above 127 is negative and would index before the table. */
  predicate IsTableChar(c: char)
  {
    c as int < 128
  }

  /** `ChHashTable`: a token kind per character code (Illegal where unset). */
  class ChTable {
    var values: array<TokenType>

    ghost predicate Valid()
      reads this
    {
      values.Length == 300
    }

    /** `new_ch_ht`: every slot 0, i.e. Illegal. */
    constructor ()
      ensures Valid() && fresh(values)
      ensures forall c :: IsTableChar(c) ==> Get(c) == Illegal
      ensures values[..] == seq(300, _ => Illegal)
    {
      values := new TokenType[300](_ => Illegal);
    }

    /** `ch_ht_get`. */
    function Get(ch: char): TokenType
      reads this, values
      requires Valid() && IsTableChar(ch)
    {
      values[ch as int]
    }

    /** `ch_ht_set`. */
    method Set(ch: char, t: TokenType)
      requires Valid() && IsTableChar(ch)
      modifies values
      ensures Valid()
      ensures values[..] == old(values[..])[ch as int := t]
    {
      values[ch as int] := t;
    }
  }

  /** The slot `l_ht_set` / `l_ht_get` use: the first code plus twice the
      second one (when there is one). */
  function LexSlot(lexem: string): int
  {
    (if |lexem| > 0 then CharCode(lexem[0]) else 0) +
    (if |lexem| > 1 then CharCode(lexem[1]) * 2 else 0)
  }

  /** `LexHashTable`: a token kind per `LexSlot` (Illegal where unset). Two
      lexemes with the same slot share their entry. */
  class LexTable {
    var values: array<TokenType>

    ghost predicate Valid()
      reads this
    {
      values.Length == 400
    }

    /** `new_l_ht`: every slot Illegal. */
    constructor ()
      ensures Valid() && fresh(values)
      ensures forall l :: 0 <= LexSlot(l) < 400 ==> Get(l) == Illegal
    {
      values := new TokenType[400](_ => Illegal);
    }

    /** `l_ht_get`. */
    function Get(lexem: string): TokenType
      reads this, values
      requires Valid() && 0 <= LexSlot(lexem) < 400
    {
      values[LexSlot(lexem)]
    }

    /** `l_ht_set`. */
    method Set(lexem: string, t: TokenType)
      requires Valid() && 0 <= LexSlot(lexem) < 400
      modifies values
      ensures Valid()
      ensures Get(lexem) == t
      ensures forall l :: 0 <= LexSlot(l) < 400 && LexSlot(l) != LexSlot(lexem) ==> Get(l) == old(Get(l))
    {
      values[LexSlot(lexem)] := t;
    }
  }

  /** `token_view`: the lexeme of a Number or Identifier token (NULL when
      empty), otherwise the preview text registered for its kind. */
  function TokenView(preview: TTTable, token: Token, source: string): (r: Option<string>)
    reads preview, preview.values
    requires preview.Valid()
    requires token.ttype in {Number, Identifier} ==> token.start <= token.end <= |source|
    ensures token.ttype in {Number, Identifier} && token.start < token.end ==>
              r == Some(source[token.start..token.end])
    ensures token.ttype in {Number, Identifier} && token.start == token.end ==> r == None
    ensures token.ttype !in {Number, Identifier} ==> r == preview.Get(token.ttype)
  {
    match token.ttype
    case Number => Slice(source, token.start, token.end)
    case Identifier => Slice(source, token.start, token.end)
    case _ => preview.Get(token.ttype)
  }
}
