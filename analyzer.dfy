/** The semantic analyzer of include/analyzer.c: the 512-bucket string to
    type table, the stack of those tables that holds the lexical scopes,
    and the walk over the statement list that checks types, writes the
    resolved types and scope depths into the tree and collects errors.

    The walk is first given as functions of an `AState` snapshot, then as
    the methods of the `AnalysisCache` class, which are proved to end in
    the state those functions describe. Undefined behaviour of the C code
    (a NULL pointer read, a NULL key hashed, popping an empty scope stack)
    makes a function return `Undef`; the methods require it does not. */
module Analyzer {
  import opened Utils
  import opened Tokens
  import opened Ast

  // ---------------------------------------------------------------------
  // hash

  /** The number of buckets in a row. */
  const Buckets: nat := 512

  /** `size_t` holds its values modulo 2^64. */
  const SizeMod: nat := 0x1_0000_0000_0000_0000

  /** The weighted sum `hash` accumulates: the i-th character (from 0)
      counts `i + 1` times its C `char` value. */
  function KeySum(key: string): int
  {
    if key == [] then 0 else KeySum(key[..|key| - 1]) + |key| * CharCode(key[|key| - 1])
  }

  /** The bucket of `key`. */
  function Hash(key: string): nat
  {
    KeySum(key) % Buckets
  }

  /** Reducing modulo 2^64 first does not change the bucket, because 512
      divides 2^64. */
  lemma WrapKeepsBucket(a: int)
    ensures (a % SizeMod) % Buckets == a % Buckets
  {
    var q := a / SizeMod;
    assert a == q * SizeMod + a % SizeMod;
    assert q * SizeMod == (q * 0x80_0000_0000_0000) * Buckets;
    AddMultiple(a % SizeMod, q * 0x80_0000_0000_0000);
  }

  lemma AddMultiple(r: int, k: int)
    ensures (r + k * Buckets) % Buckets == r % Buckets
  {
  }

  /** `hash`: the loop adds each weighted character into a wrapping
      `size_t` sum, and the bucket is the sum modulo 512. The bucket is
      always in [0, 512): the unsigned sum never goes negative. */
  method HashKey(key: string) returns (h: int)
    ensures 0 <= h < Buckets
    ensures h == Hash(key)
  {
    var sum := 0;
    var i := 0;
    while i < |key|
      invariant 0 <= i <= |key|
      invariant 0 <= sum < SizeMod
      invariant sum % Buckets == KeySum(key[..i]) % Buckets
    {
      assert key[..i + 1][..i] == key[..i];
      var next := sum + (i + 1) * CharCode(key[i]);
      WrapKeepsBucket(next);
      WrapKeepsBucket(sum + KeySum(key[..i + 1]) - KeySum(key[..i]));
      SumStep(sum, KeySum(key[..i]), (i + 1) * CharCode(key[i]));
      sum := next % SizeMod;
      i := i + 1;
    }
    assert key[..i] == key;
    h := sum % Buckets;
  }

  /** Adding the same amount keeps two numbers in the same bucket. */
  lemma SumStep(a: int, b: int, x: int)
    requires a % Buckets == b % Buckets
    ensures (a + x) % Buckets == (b + x) % Buckets
  {
    var d := a - b;
    assert d == (a / Buckets - b / Buckets) * Buckets;
    AddMultiple(b + x, a / Buckets - b / Buckets);
  }

  // ---------------------------------------------------------------------
  // HashTable

  /** One bucket of one row: the two parallel arrays `keys` and
      `datatypes` of the C table, kept here as one array of pairs. A NULL
      key marks a free slot; a stored type may itself be NULL. */
  datatype Slot = Slot(key: Option<string>, dtype: Option<GenericType>)

  type Row = seq<Slot>
  type Rows = seq<Row>

  /** A row of free slots, as `hashtable_set` initialises an added row. */
  function EmptyRow(): (r: Row)
    ensures |r| == Buckets && forall b :: 0 <= b < Buckets ==> r[b] == Slot(None, None)
  {
    seq(Buckets, _ => Slot(None, None))
  }

  /** Every row has 512 slots. */
  ghost predicate WellFormed(rows: Rows)
  {
    forall i :: 0 <= i < |rows| ==> |rows[i]| == Buckets
  }

  /** In every bucket the occupied rows come first. */
  ghost predicate PrefixOccupied(rows: Rows)
    requires WellFormed(rows)
  {
    forall i, j, b :: 0 <= i < j < |rows| && 0 <= b < Buckets && rows[j][b].key.Some? ==> rows[i][b].key.Some?
  }

  /** In every bucket a key occupies at most one row. */
  ghost predicate KeysUnique(rows: Rows)
    requires WellFormed(rows)
  {
    forall i, j, b :: 0 <= i < j < |rows| && 0 <= b < Buckets && rows[i][b].key.Some? ==> rows[j][b].key != rows[i][b].key
  }

  /** The invariant the two table operations keep. */
  ghost predicate TableInv(rows: Rows)
  {
    WellFormed(rows) && PrefixOccupied(rows) && KeysUnique(rows)
  }

  /** `hashtable_get` from row `i` on, in bucket `b`: a free slot ends the
      search with NULL, a different key moves to the next row, the same key
      gives its stored type; past the last row the answer is NULL. */
  function GetFrom(rows: Rows, b: nat, key: string, i: nat): (r: Option<GenericType>)
    requires WellFormed(rows) && b < Buckets
    ensures r.Some? ==> exists j :: i <= j < |rows| && rows[j][b] == Slot(Some(key), r)
    decreases |rows| - i
  {
    if i >= |rows| then None
    else if rows[i][b].key.None? then None
    else if rows[i][b].key != Some(key) then GetFrom(rows, b, key, i + 1)
    else rows[i][b].dtype
  }

  /** `hashtable_get`. */
  function TableGet(rows: Rows, key: string): Option<GenericType>
    requires WellFormed(rows)
  {
    GetFrom(rows, Hash(key), key, 0)
  }

  /** `hashtable_set` from row `i` on, in bucket `b`: the first row whose
      slot is free or holds `key` takes the pair; when every row holds a
      different key there, a new row of free slots is added for it. */
  function SetFrom(rows: Rows, b: nat, key: string, v: Option<GenericType>, i: nat): (r: Rows)
    requires WellFormed(rows) && b < Buckets
    ensures WellFormed(r) && |rows| <= |r| <= |rows| + 1
    decreases |rows| - i
  {
    if i >= |rows| then rows + [EmptyRow()[b := Slot(Some(key), v)]]
    else if rows[i][b].key.Some? && rows[i][b].key != Some(key) then SetFrom(rows, b, key, v, i + 1)
    else rows[i := rows[i][b := Slot(Some(key), v)]]
  }

  /** `hashtable_set`. */
  function TableSet(rows: Rows, key: string, v: Option<GenericType>): (r: Rows)
    requires WellFormed(rows)
    ensures WellFormed(r)
  {
    SetFrom(rows, Hash(key), key, v, 0)
  }

  /** The loop of `hashtable_get` over a table's rows. */
  method RowsGet(rows: Rows, key: string) returns (r: Option<GenericType>)
    requires WellFormed(rows)
    ensures r == TableGet(rows, key)
  {
    var index := HashKey(key);
    var i := 0;
    while i < |rows|
      invariant 0 <= i <= |rows|
      invariant GetFrom(rows, index, key, i) == TableGet(rows, key)
    {
      if rows[i][index].key.None? {
        return None;
      }
      if rows[i][index].key != Some(key) {
        i := i + 1;
        continue;
      }
      return rows[i][index].dtype;
    }
    return None;
  }

  /** The loop of `hashtable_set` over a table's rows, giving the rows
      afterwards. */
  method RowsSet(rows: Rows, key: string, v: Option<GenericType>) returns (r: Rows)
    requires WellFormed(rows)
    ensures r == TableSet(rows, key, v)
  {
    var index := HashKey(key);
    var i := 0;
    while i < |rows|
      invariant 0 <= i <= |rows|
      invariant SetFrom(rows, index, key, v, i) == TableSet(rows, key, v)
    {
      if rows[i][index].key.Some? && rows[i][index].key != Some(key) {
        i := i + 1;
        continue;
      }
      return rows[i := rows[i][index := Slot(Some(key), v)]];
    }
    var added := EmptyRow();
    return rows + [added[index := Slot(Some(key), v)]];
  }

  /** The row where `hashtable_set`, searching from row `i`, puts `key` in
      bucket `b`: the first whose slot is free or holds `key`; `|rows|`
      when there is none and a row is added. */
  function SetIndex(rows: Rows, b: nat, key: string, i: nat): (p: nat)
    requires WellFormed(rows) && b < Buckets && i <= |rows|
    ensures i <= p <= |rows|
    ensures forall j :: i <= j < p ==> rows[j][b].key.Some? && rows[j][b].key != Some(key)
    ensures p < |rows| ==> rows[p][b].key.None? || rows[p][b].key == Some(key)
    decreases |rows| - i
  {
    if i == |rows| then i
    else if rows[i][b].key.Some? && rows[i][b].key != Some(key) then SetIndex(rows, b, key, i + 1)
    else i
  }

  /** The rows `hashtable_set` leaves: the slot of the chosen row is
      overwritten, or a row of free slots holding only the new pair is
      added. */
  lemma {:induction false} SetFromIs(rows: Rows, b: nat, key: string, v: Option<GenericType>, i: nat)
    requires WellFormed(rows) && b < Buckets && i <= |rows|
    ensures var p := SetIndex(rows, b, key, i);
      SetFrom(rows, b, key, v, i) ==
        if p < |rows| then rows[p := rows[p][b := Slot(Some(key), v)]]
        else rows + [EmptyRow()[b := Slot(Some(key), v)]]
    decreases |rows| - i
  {
    if i < |rows| && rows[i][b].key.Some? && rows[i][b].key != Some(key) {
      SetFromIs(rows, b, key, v, i + 1);
    }
  }

  /** Two tables whose slots in bucket `b` agree on rows `q` up to `m`
      answer a lookup from `q` alike when they answer it alike from `m`. */
  lemma {:induction false} GetAgree(rows: Rows, rows2: Rows, b: nat, key: string, q: nat, m: nat)
    requires WellFormed(rows) && WellFormed(rows2) && b < Buckets
    requires q <= m <= |rows| && m <= |rows2|
    requires forall j :: q <= j < m ==> rows2[j][b] == rows[j][b]
    requires GetFrom(rows2, b, key, m) == GetFrom(rows, b, key, m)
    ensures GetFrom(rows2, b, key, q) == GetFrom(rows, b, key, q)
    decreases m - q
  {
    if q < m {
      GetAgree(rows, rows2, b, key, q + 1, m);
    }
  }

  /** Get after set: the key reads back as the value just stored. */
  lemma GetAfterSet(rows: Rows, key: string, v: Option<GenericType>)
    requires WellFormed(rows)
    ensures TableGet(TableSet(rows, key, v), key) == v
  {
    var b := Hash(key);
    var p := SetIndex(rows, b, key, 0);
    SetFromIs(rows, b, key, v, 0);
    var rows2: Rows := TableSet(rows, key, v);
    assert GetFrom(rows2, b, key, p) == v;
    SkipPassed(rows2, b, key, 0, p);
  }

  /** A lookup moves past rows that hold other keys in its bucket. */
  lemma {:induction false} SkipPassed(rows: Rows, b: nat, key: string, q: nat, p: nat)
    requires WellFormed(rows) && b < Buckets && q <= p <= |rows|
    requires forall j :: q <= j < p ==> rows[j][b].key.Some? && rows[j][b].key != Some(key)
    ensures GetFrom(rows, b, key, q) == GetFrom(rows, b, key, p)
    decreases p - q
  {
    if q < p {
      SkipPassed(rows, b, key, q + 1, p);
    }
  }

  /** Get after set of another key: its answer is unchanged, provided the
      occupied rows of each bucket come first. */
  lemma GetOtherAfterSet(rows: Rows, key: string, v: Option<GenericType>, other: string)
    requires TableInv(rows) && other != key
    ensures TableGet(TableSet(rows, key, v), other) == TableGet(rows, other)
  {
    var b := Hash(key);
    var p := SetIndex(rows, b, key, 0);
    SetFromIs(rows, b, key, v, 0);
    var rows2: Rows := TableSet(rows, key, v);
    if Hash(other) != b {
      OtherBucketAfterSet(rows, rows2, b, key, v, other, p);
    } else if p == |rows| {
      assert GetFrom(rows2, b, other, |rows| + 1) == None;
      GetAgree(rows, rows2, b, other, 0, |rows|);
    } else {
      SameBucketAfterSet(rows, rows2, b, key, v, other, p);
    }
  }

  /** A key of another bucket reads the same slots after the set. */
  lemma OtherBucketAfterSet(rows: Rows, rows2: Rows, b: nat, key: string, v: Option<GenericType>, other: string, p: nat)
    requires WellFormed(rows) && b < Buckets && p <= |rows| && Hash(other) != b
    requires rows2 == if p < |rows| then rows[p := rows[p][b := Slot(Some(key), v)]]
                      else rows + [EmptyRow()[b := Slot(Some(key), v)]]
    ensures WellFormed(rows2) && GetFrom(rows2, Hash(other), other, 0) == GetFrom(rows, Hash(other), other, 0)
  {
    var b2 := Hash(other);
    if p == |rows| {
      assert rows2[|rows|][b2].key.None?;
    }
    GetAgree(rows, rows2, b2, other, 0, |rows|);
  }

  /** A different key of the same bucket, when the set overwrote row `p`:
      the rows before `p` are untouched, and row `p` either was the first
      free one (so the key is absent) or held `key` itself. */
  lemma SameBucketAfterSet(rows: Rows, rows2: Rows, b: nat, key: string, v: Option<GenericType>, other: string, p: nat)
    requires TableInv(rows) && b < Buckets && p < |rows| && Hash(other) == b && other != key
    requires forall j :: 0 <= j < p ==> rows[j][b].key.Some? && rows[j][b].key != Some(key)
    requires rows[p][b].key.None? || rows[p][b].key == Some(key)
    requires rows2 == rows[p := rows[p][b := Slot(Some(key), v)]]
    ensures WellFormed(rows2) && GetFrom(rows2, b, other, 0) == GetFrom(rows, b, other, 0)
  {
    if rows[p][b].key.None? {
      FreeSlotAfterSet(rows, rows2, b, key, v, other, p);
    } else {
      GetAgree(rows, rows2, b, other, p + 1, |rows|);
    }
    GetAgree(rows, rows2, b, other, 0, p);
  }

  /** When the set filled the first free slot of the bucket, a different
      key is found from there on in neither table. */
  lemma FreeSlotAfterSet(rows: Rows, rows2: Rows, b: nat, key: string, v: Option<GenericType>, other: string, p: nat)
    requires TableInv(rows) && b < Buckets && p < |rows| && other != key && rows[p][b].key.None?
    requires rows2 == rows[p := rows[p][b := Slot(Some(key), v)]]
    ensures WellFormed(rows2) && GetFrom(rows2, b, other, p) == None == GetFrom(rows, b, other, p)
  {
    if p + 1 < |rows| {
      assert rows2[p + 1][b].key.None?;
    }
    assert GetFrom(rows2, b, other, p + 1) == None;
  }

  /** A row is added exactly when every existing row already holds a
      different key in the key's bucket. */
  lemma SetAddsRowIff(rows: Rows, key: string, v: Option<GenericType>)
    requires WellFormed(rows)
    ensures |TableSet(rows, key, v)| == |rows| + 1 <==>
      forall j :: 0 <= j < |rows| ==> rows[j][Hash(key)].key.Some? && rows[j][Hash(key)].key != Some(key)
  {
    SetFromIs(rows, Hash(key), key, v, 0);
  }

  /** `hashtable_set` keeps the occupied rows of each bucket first and each
      key in at most one row. */
  lemma SetKeepsInv(rows: Rows, key: string, v: Option<GenericType>)
    requires TableInv(rows)
    ensures TableInv(TableSet(rows, key, v))
  {
    var b := Hash(key);
    var p := SetIndex(rows, b, key, 0);
    SetFromIs(rows, b, key, v, 0);
    var rows2: Rows := TableSet(rows, key, v);
    forall i, j, c | 0 <= i < j < |rows2| && 0 <= c < Buckets && rows2[j][c].key.Some?
      ensures rows2[i][c].key.Some?
    {
      if c == b && j == p {
      } else if p == |rows| && j == p {
        assert false;
      }
    }
    forall i, j, c | 0 <= i < j < |rows2| && 0 <= c < Buckets && rows2[i][c].key.Some?
      ensures rows2[j][c].key != rows2[i][c].key
    {
      if c == b && (i == p || j == p) {
        if i == p && j < |rows| && rows[p][b].key.None? {
          assert rows[j][b].key.None?;
        }
      }
    }
  }

  /** `HashTable`: the rows of one scope's table; `size` is their number. */
  class HashTable {
    var rows: Rows

    ghost predicate Valid()
      reads this
    {
      TableInv(rows)
    }

    /** `hashtable_create`: no rows. */
    constructor ()
      ensures Valid() && rows == []
    {
      rows := [];
    }

    /** `hashtable_set`. */
    method Set(key: string, v: Option<GenericType>)
      requires Valid()
      modifies this
      ensures Valid()
      ensures rows == TableSet(old(rows), key, v)
    {
      rows := RowsSet(rows, key, v);
      SetKeepsInv(old(rows), key, v);
    }

    /** `hashtable_get`. */
    method Get(key: string) returns (r: Option<GenericType>)
      requires Valid()
      ensures r == TableGet(rows, key)
    {
      r := RowsGet(rows, key);
    }
  }

  // ---------------------------------------------------------------------
  // The analysis state

  /** `ErrorType`. */
  datatype ErrorKind = ParseError | SyntaxError | TypeError | ReferenceError

  /** `Error`: its kind, its message and the token it is reported at. */
  datatype Error = Error(kind: ErrorKind, message: string, token: Token)

  /** A snapshot of an `AnalysisCache`: the source text, the scope tables
      from the outermost (0) to the innermost, the errors in the order they
      were reported, the function whose body is being checked, and the loop
      depth. `current_scope` is set to 0 and never read, so it is not part
      of the snapshot. */
  datatype AState = AState(source: string, scopes: seq<Rows>, errors: seq<Error>, fn: Option<FunctionType>, inLoop: int)

  /** Every scope table has rows of 512 slots. */
  ghost predicate Good(st: AState)
  {
    forall i :: 0 <= i < |st.scopes| ==> WellFormed(st.scopes[i])
  }

  /** Every scope table keeps the table invariant. */
  ghost predicate Inv(st: AState)
  {
    forall i :: 0 <= i < |st.scopes| ==> TableInv(st.scopes[i])
  }

  /** `st2` differs from `st` at most by errors added at the end. */
  ghost predicate OnlyErrors(st: AState, st2: AState)
  {
    st2 == st.(errors := st2.errors) && st.errors <= st2.errors
  }

  /** The outcome of a step of the walk: the state afterwards and the
      value it gives, or undefined behaviour. */
  datatype Res<T> = Ok(st: AState, value: T) | Undef

  /** `analysis_cache_create`: one empty scope, no errors, outside any loop
      and any function. */
  function FreshState(source: string): AState
  {
    AState(source, [[]], [], None, 0)
  }

  /** The name a token spells: `substring` of the source over the token,
      None where it is NULL (an empty token) or lies outside the source. */
  function KeyOf(st: AState, tok: Token): (k: Option<string>)
    ensures k.Some? <==> tok.start < tok.end <= |st.source|
  {
    if tok.start <= tok.end <= |st.source| then Slice(st.source, tok.start, tok.end) else None
  }

  /** Where `analysis_cache_get` finds a name: the type and the depth of
      its binding, or nowhere. */
  datatype Binding = Bound(dtype: GenericType, scope: nat) | Unbound

  /** The search of `analysis_cache_get` from scope `i` outwards: the
      innermost scope that maps the key to a non-NULL type. */
  function LookupFrom(scopes: seq<Rows>, key: string, i: int): (r: Binding)
    requires -1 <= i < |scopes|
    requires forall j :: 0 <= j < |scopes| ==> WellFormed(scopes[j])
    ensures r.Bound? ==> r.scope <= i && TableGet(scopes[r.scope], key) == Some(r.dtype)
    ensures r.Bound? ==> forall j :: r.scope < j <= i ==> TableGet(scopes[j], key).None?
    ensures r.Unbound? <==> forall j :: 0 <= j <= i ==> TableGet(scopes[j], key).None?
    decreases i + 1
  {
    if i < 0 then Unbound
    else
      var t := TableGet(scopes[i], key);
      if t.Some? then Bound(t.value, i) else LookupFrom(scopes, key, i - 1)
  }

  /** `analysis_cache_get`: with no scope nothing is looked up; otherwise a
      NULL key would be hashed, which is undefined. */
  function Lookup(st: AState, tok: Token): (r: Option<Binding>)
    requires Good(st)
    ensures r.None? <==> |st.scopes| > 0 && KeyOf(st, tok).None?
  {
    if |st.scopes| == 0 then Some(Unbound)
    else
      var k := KeyOf(st, tok);
      if k.None? then None else Some(LookupFrom(st.scopes, k.value, |st.scopes| - 1))
  }

  /** `analysis_cache_defined_in_current_scope`: the innermost table maps
      the name to a non-NULL type. */
  function DefinedHere(st: AState, tok: Token): (r: Option<bool>)
    requires Good(st)
    ensures r.None? <==> |st.scopes| == 0 || KeyOf(st, tok).None?
  {
    if |st.scopes| == 0 then None
    else
      var k := KeyOf(st, tok);
      if k.None? then None else Some(TableGet(st.scopes[|st.scopes| - 1], k.value).Some?)
  }

  /** `analysis_cache_defined`: some scope maps the name to a non-NULL
      type. */
  function DefinedAnywhere(st: AState, tok: Token): (r: Option<bool>)
    requires Good(st)
    ensures r.None? <==> |st.scopes| > 0 && KeyOf(st, tok).None?
    ensures r == Some(true) <==>
      KeyOf(st, tok).Some? && exists j :: 0 <= j < |st.scopes| && TableGet(st.scopes[j], KeyOf(st, tok).value).Some?
  {
    var b := Lookup(st, tok);
    if b.None? then None else Some(b.value.Bound?)
  }

  /** `analysis_cache_set`: binds the name in scope `scope`, where -1 means
      the innermost one; a scope outside the stack is undefined. */
  function SetName(st: AState, tok: Token, v: Option<GenericType>, scope: int): (r: Option<AState>)
    requires Good(st)
    ensures r.Some? ==> Good(r.value)
  {
    var s := if scope == -1 then |st.scopes| - 1 else scope;
    var k := KeyOf(st, tok);
    if !(0 <= s < |st.scopes|) || k.None? then None
    else Some(st.(scopes := st.scopes[s := TableSet(st.scopes[s], k.value, v)]))
  }

  /** `analysis_cache_add_error`. */
  function WithError(st: AState, kind: ErrorKind, message: string, tok: Token): AState
  {
    st.(errors := st.errors + [Error(kind, message, tok)])
  }

  /** `analysis_cache_extend`: a new innermost scope with an empty table. */
  function Extended(st: AState): AState
  {
    st.(scopes := st.scopes + [[]])
  }

  /** `analysis_cache_shrink`: drops the innermost scope; with none left
      the size would wrap around, which is undefined. */
  function Shrunk(st: AState): Option<AState>
  {
    if |st.scopes| == 0 then None else Some(st.(scopes := st.scopes[..|st.scopes| - 1]))
  }

  // ---------------------------------------------------------------------
  // analysis_cache_process_expression

  /** An expression after analysis and the type the analysis gives it. */
  datatype TypedExp = TypedExp(dtype: Option<GenericType>, exp: Expression)

  /** `analysis_cache_process_expression`: arithmetic and ordering
      operators want `int` operands, `!`, `||` and `&&` want `bool`, `==`
      and `!=` want comparable operands, literals keep their type, other
      tokens are variables looked up in the scopes, and calls are checked
      against the callee. Only errors are added; a call node gets its type. */
  function ExpR(st: AState, e: Expression): (r: Res<TypedExp>)
    requires Good(st)
    ensures r.Ok? ==> OnlyErrors(st, r.st)
    decreases e, 0, 0
  {
    match e
    case ExpExp(op) =>
      var t := op.token.ttype;
      if t.Lt? || t.Gt? || t.GtE? || t.LtE? || t.Plus? || t.Minus? || t.Star? || t.Slash? || t.Mod? then
        OperandsR(st, op, Int, "expected int")
      else if t.Not? then NotR(st, op)
      else if t.Or? || t.And? then OperandsR(st, op, Bool, "expected bool")
      else if t.NotEq? || t.EqEq? then CompareR(st, op)
      else if t.True? || t.False? || t.Number? then Ok(st, TypedExp(op.dtype, e))
      else
        var b := Lookup(st, op.token);
        if b.None? then Undef
        else if b.value.Unbound? then Ok(WithError(st, ReferenceError, "undefined variable", op.token), TypedExp(None, e))
        else Ok(st, TypedExp(Some(b.value.dtype), e))
    case FnCallExp(c) => CallR(st, c)
  }

  /** A binary operator whose operands must both be `want`: a wrong left
      operand is "invalid operation for given type", a wrong right one
      `rightMessage`. An operand without a type is read through NULL. */
  function OperandsR(st: AState, op: OpExpression, want: DataType, rightMessage: string): (r: Res<TypedExp>)
    requires Good(st)
    ensures r.Ok? ==> OnlyErrors(st, r.st)
    decreases op, 0, 0
  {
    if op.left.None? || op.right.None? then Undef
    else
      var l := ExpR(st, op.left.value);
      if l.Undef? || l.value.dtype.None? then Undef
      else
        var st1 := if l.value.dtype != Some(Simple(want))
          then WithError(l.st, TypeError, "invalid operation for given type", op.token) else l.st;
        var r := ExpR(st1, op.right.value);
        if r.Undef? || r.value.dtype.None? then Undef
        else
          var st2 := if r.value.dtype != Some(Simple(want))
            then WithError(r.st, TypeError, rightMessage, op.token) else r.st;
          Ok(st2, TypedExp(op.dtype, ExpExp(op.(left := Some(l.value.exp), right := Some(r.value.exp)))))
  }

  /** `!`: the operand must be `bool`. */
  function NotR(st: AState, op: OpExpression): (r: Res<TypedExp>)
    requires Good(st)
    ensures r.Ok? ==> OnlyErrors(st, r.st)
    decreases op, 0, 0
  {
    if op.left.None? then Undef
    else
      var sub := ExpR(st, op.left.value);
      if sub.Undef? || sub.value.dtype.None? then Undef
      else
        var st1 := if sub.value.dtype != Some(Simple(Bool))
          then WithError(sub.st, TypeError, "expected bool", op.token) else sub.st;
        Ok(st1, TypedExp(op.dtype, ExpExp(op.(left := Some(sub.value.exp)))))
  }

  /** `==` and `!=`: the operand types must compare equal. */
  function CompareR(st: AState, op: OpExpression): (r: Res<TypedExp>)
    requires Good(st)
    ensures r.Ok? ==> OnlyErrors(st, r.st)
    decreases op, 0, 0
  {
    if op.left.None? || op.right.None? then Undef
    else
      var l := ExpR(st, op.left.value);
      if l.Undef? then Undef
      else
        var r := ExpR(l.st, op.right.value);
        if r.Undef? then Undef
        else
          var st1 := if !TypeCompare(l.value.dtype, r.value.dtype)
            then WithError(r.st, TypeError, "cannot compare different types", op.token) else r.st;
          Ok(st1, TypedExp(op.dtype, ExpExp(op.(left := Some(l.value.exp), right := Some(r.value.exp)))))
  }

  /** A call inside an expression: an unbound callee is a ReferenceError
      and a non-function a TypeError, and either way the call has no type;
      otherwise its type is the callee's return type. A count mismatch, or
      a callee that is not a function, is "wrong number of arguments", and
      the arguments are checked only when the counts match. */
  function CallR(st: AState, c: Call): (r: Res<TypedExp>)
    requires Good(st)
    ensures r.Ok? ==> OnlyErrors(st, r.st)
    decreases c, 1, 0
  {
    var b := Lookup(st, c.name);
    if b.None? then Undef
    else
      var isFn := b.value.Bound? && b.value.dtype.Complex?;
      var st1 :=
        if b.value.Unbound? then WithError(st, ReferenceError, "undefined function", c.name)
        else if !isFn then WithError(st, TypeError, "not a function", c.name)
        else st;
      var dtype := if isFn then b.value.dtype.fn.returnType else None;
      var params := if isFn then b.value.dtype.fn.params else [];
      var check := isFn && |c.args| == |params|;
      var st2 := if !check then WithError(st1, TypeError, "wrong number of arguments", c.name) else st1;
      var args := ArgsR(st2, c, check, params, "argument has wrong type", 0, []);
      if args.Undef? then Undef
      else Ok(args.st, TypedExp(dtype, FnCallExp(c.(dtype := dtype, args := args.value))))
  }

  /** The argument loop of a call: each argument is analysed in order and,
      when `check` holds, one whose type does not compare equal to its
      parameter's is reported with `message`. (The C code in an expression
      also skips an argument without a type, which compares equal anyway.) */
  function ArgsR(st: AState, c: Call, check: bool, params: seq<FnParam>, message: string, i: nat, acc: seq<Expression>)
    : (r: Res<seq<Expression>>)
    requires Good(st) && i <= |c.args|
    requires check ==> |params| == |c.args|
    ensures r.Ok? ==> OnlyErrors(st, r.st) && |r.value| == |acc| + |c.args| - i
    decreases c, 0, |c.args| - i
  {
    if i == |c.args| then Ok(st, acc)
    else
      var a := ExpR(st, c.args[i]);
      if a.Undef? then Undef
      else
        var st1 := if check && !TypeCompare(a.value.dtype, params[i].dtype)
          then WithError(a.st, TypeError, message, c.name) else a.st;
        ArgsR(st1, c, check, params, message, i + 1, acc + [a.value.exp])
  }

  // ---------------------------------------------------------------------
  // analysis_cache_process_oneliner

  /** The scope a resolved name is recorded with: its depth at top level,
      -1 inside a function body. */
  function ScopeFor(st: AState, depth: int): int
  {
    if st.fn.None? then depth else -1
  }

  /** `analysis_cache_process_oneliner`: an assignment or a call statement,
      written back with the types and scopes the analysis resolves. */
  function OnelinerR(st: AState, ol: Oneliner): (r: Res<Oneliner>)
    requires Good(st)
    ensures r.Ok? ==> Good(r.st) && st.errors <= r.st.errors
    ensures r.Ok? ==> r.st.source == st.source && r.st.fn == st.fn && r.st.inLoop == st.inLoop
    ensures r.Ok? ==> |r.st.scopes| == |st.scopes|
    ensures r.Ok? ==> r.value.AssignmentOL? == ol.AssignmentOL?
  {
    match ol
    case AssignmentOL(ass) => AssignR(st, ass)
    case CallOL(c) => CallStmtR(st, c)
  }

  /** An assignment: `:=`, or a declaration with a type, of a name the
      innermost scope already binds is a redefinition; then the branch of
      its operator runs. */
  function AssignR(st: AState, ass: Assignment): (r: Res<Oneliner>)
    requires Good(st)
    ensures r.Ok? ==> Good(r.st) && st.errors <= r.st.errors && r.value.AssignmentOL?
    ensures r.Ok? ==> r.st.source == st.source && r.st.fn == st.fn && r.st.inLoop == st.inLoop
    ensures r.Ok? ==> |r.st.scopes| == |st.scopes|
  {
    var here := DefinedHere(st, ass.variable);
    if here.None? then Undef
    else
      var st1 := if ass.newVar && here.value
        then WithError(st, ReferenceError, "variable redefinition is not allowed", ass.variable) else st;
      var t := ass.op.ttype;
      if t.Inc? || t.Dec? then StepR(st1, ass)
      else if ass.exp.None? then Undef
      else
        var e := ExpR(st1, ass.exp.value);
        if e.Undef? then Undef
        else
          var ass1 := ass.(exp := Some(e.value.exp));
          if t.PlusEq? || t.MinusEq? || t.StarEq? || t.SlashEq? || t.ModEq? then CompoundR(e.st, ass1, e.value.dtype)
          else if t.ColEq? then DeclareR(e.st, ass1, e.value.dtype, here.value)
          else PlainR(e.st, ass1, e.value.dtype, here.value)
  }

  /** `++` and `--`: the variable must be bound to `int`; only then are its
      type and scope recorded. */
  function StepR(st: AState, ass: Assignment): (r: Res<Oneliner>)
    requires Good(st)
    ensures r.Ok? ==> OnlyErrors(st, r.st) && r.value.AssignmentOL?
  {
    var b := Lookup(st, ass.variable);
    if b.None? then Undef
    else if b.value.Unbound? then Ok(WithError(st, ReferenceError, "undefined variable", ass.variable), AssignmentOL(ass))
    else if b.value.dtype != Simple(Int) then Ok(WithError(st, TypeError, "invalid operation for given type", ass.variable), AssignmentOL(ass))
    else Ok(st, AssignmentOL(ass.(dtype := Some(b.value.dtype), scope := ScopeFor(st, b.value.scope))))
  }

  /** `+=`, `-=`, `*=`, `/=` and `%=`: the variable must be bound to `int`
      and the expression must be `int`. The variable's type is recorded
      either way, its scope only when it is an `int`. A function-typed
      variable counts as not `int`; an expression without a type is read
      through NULL. */
  function CompoundR(st: AState, ass: Assignment, et: Option<GenericType>): (r: Res<Oneliner>)
    requires Good(st)
    ensures r.Ok? ==> OnlyErrors(st, r.st) && r.value.AssignmentOL?
  {
    var b := Lookup(st, ass.variable);
    if b.None? || et.None? then Undef
    else
      var vt := if b.value.Bound? then Some(b.value.dtype) else None;
      var ok := b.value.Bound? && b.value.dtype == Simple(Int);
      var st1 :=
        if b.value.Unbound? then WithError(st, ReferenceError, "undefined variable", ass.variable)
        else if !ok then WithError(st, TypeError, "invalid operation for given type", ass.variable)
        else st;
      var ass1 := if ok then ass.(dtype := vt, scope := ScopeFor(st, b.value.scope)) else ass.(dtype := vt);
      var st2 := if et.value != Simple(Int) then WithError(st1, TypeError, "expected a number", ass.variable) else st1;
      Ok(st2, AssignmentOL(ass1))
  }

  /** `:=`: a name new to the innermost scope is bound there to the
      expression's type, which the assignment records with the scope. */
  function DeclareR(st: AState, ass: Assignment, et: Option<GenericType>, here: bool): (r: Res<Oneliner>)
    requires Good(st)
    ensures r.Ok? ==> Good(r.st) && r.st.errors == st.errors && r.value.AssignmentOL?
    ensures r.Ok? ==> r.st.source == st.source && r.st.fn == st.fn && r.st.inLoop == st.inLoop
    ensures r.Ok? ==> |r.st.scopes| == |st.scopes|
  {
    if here then Ok(st, AssignmentOL(ass))
    else
      var s := SetName(st, ass.variable, et, -1);
      if s.None? then Undef
      else Ok(s.value, AssignmentOL(ass.(scope := ScopeFor(st, |st.scopes| - 1), dtype := et)))
  }

  /** `=` (and any other operator): a declaration `x: T = e` binds `x` to
      `T` in the innermost scope and wants `e` to compare equal to `T`; a
      plain `x = e` wants `x` bound to a type comparing equal to `e`'s and
      records that type and its scope. On an unbound `x` at top level the
      C code records an uninitialised scope; the model keeps the old one. */
  function PlainR(st: AState, ass: Assignment, et: Option<GenericType>, here: bool): (r: Res<Oneliner>)
    requires Good(st)
    ensures r.Ok? ==> Good(r.st) && st.errors <= r.st.errors && r.value.AssignmentOL?
    ensures r.Ok? ==> r.st.source == st.source && r.st.fn == st.fn && r.st.inLoop == st.inLoop
    ensures r.Ok? ==> |r.st.scopes| == |st.scopes|
  {
    if ass.newVar && here then Ok(st, AssignmentOL(ass))
    else if ass.newVar then
      var s := SetName(st, ass.variable, ass.dtype, -1);
      if s.None? then Undef
      else
        var st1 := if !TypeCompare(ass.dtype, et) then WithError(s.value, TypeError, "invalid type", ass.variable) else s.value;
        Ok(st1, AssignmentOL(ass.(scope := ScopeFor(st, |st.scopes| - 1))))
    else
      var b := Lookup(st, ass.variable);
      if b.None? then Undef
      else
        var vt := if b.value.Bound? then Some(b.value.dtype) else None;
        var st1 :=
          if b.value.Unbound? then WithError(st, ReferenceError, "undefined variable", ass.variable)
          else if !TypeCompare(et, vt) then WithError(st, TypeError, "invalid type", ass.variable)
          else st;
        var scope := if b.value.Bound? then ScopeFor(st, b.value.scope) else ScopeFor(st, ass.scope);
        Ok(st1, AssignmentOL(ass.(dtype := vt, scope := scope)))
  }

  /** A call statement: the callee must be bound, be a function and return
      `void`; only then is its scope recorded (the depth of the innermost
      scope at top level). The callee's type is recorded either way, and
      the arguments are checked only when their count matches. A function
      type without a return type is read through NULL. */
  function CallStmtR(st: AState, c: Call): (r: Res<Oneliner>)
    requires Good(st)
    ensures r.Ok? ==> OnlyErrors(st, r.st) && r.value.CallOL?
  {
    var b := Lookup(st, c.name);
    if b.None? then Undef
    else
      var isFn := b.value.Bound? && b.value.dtype.Complex?;
      if isFn && b.value.dtype.fn.returnType.None? then Undef
      else
        var dt := if b.value.Bound? then Some(b.value.dtype) else None;
        var returnsVoid := isFn && b.value.dtype.fn.returnType == Some(Simple(Void));
        var st1 :=
          if b.value.Unbound? then WithError(st, ReferenceError, "undefined function", c.name)
          else if !isFn then WithError(st, TypeError, "is not a function", c.name)
          else if !returnsVoid then WithError(st, TypeError, "void call returns a value", c.name)
          else st;
        var scope := if returnsVoid then ScopeFor(st, |st.scopes| - 1) else c.scope;
        var params := if isFn then b.value.dtype.fn.params else [];
        var check := isFn && |c.args| == |params|;
        var args := ArgsR(st1, c, check, params, "wrong parameter type for the function", 0, []);
        if args.Undef? then Undef
        else Ok(args.st, CallOL(c.(dtype := dt, scope := scope, args := args.value)))
  }

  // ---------------------------------------------------------------------
  // validate

  /** `validate`: the statements in order, each under the state the ones
      before it leave. */
  function BlockR(st: AState, stmts: seq<Stmt>, i: nat, acc: seq<Stmt>): (r: Res<seq<Stmt>>)
    requires Good(st) && i <= |stmts|
    ensures r.Ok? ==> Good(r.st) && st.errors <= r.st.errors && r.st.source == st.source
    ensures r.Ok? ==> |r.value| == |acc| + |stmts| - i
    decreases stmts, 0, |stmts| - i
  {
    if i == |stmts| then Ok(st, acc)
    else
      var s := StmtR(st, stmts[i]);
      if s.Undef? then Undef else BlockR(s.st, stmts, i + 1, acc + [s.value])
  }

  /** One statement of `validate`. */
  function StmtR(st: AState, s: Stmt): (r: Res<Stmt>)
    requires Good(st)
    ensures r.Ok? ==> Good(r.st) && st.errors <= r.st.errors && r.st.source == st.source
    decreases s, 0
  {
    match s
    case OpenScopeStmt(_) => Ok(Extended(st), s)
    case CloseScopeStmt(_) =>
      var t := Shrunk(st);
      if t.None? then Undef else Ok(t.value, s)
    case BreakStmt(tok) =>
      Ok(if st.inLoop == 0 then WithError(st, SyntaxError, "break statement outside of a loop", tok) else st, s)
    case ContinueStmt(tok) =>
      Ok(if st.inLoop == 0 then WithError(st, SyntaxError, "continue statement outside of a loop", tok) else st, s)
    case ReturnStmt(tok, e) =>
      if st.fn.None? then Ok(WithError(st, SyntaxError, "return statement outside of a function body", tok), s)
      else if e.None? then Ok(st, s)
      else
        var x := ExpR(st, e.value);
        if x.Undef? then Undef
        else
          var st1 := if !TypeCompare(st.fn.value.returnType, x.value.dtype)
            then WithError(x.st, TypeError, "returning wrong type", tok) else x.st;
          Ok(st1, ReturnStmt(tok, Some(x.value.exp)))
    case OnelinerStmt(ol) =>
      var o := OnelinerR(st, ol);
      if o.Undef? then Undef else Ok(o.st, OnelinerStmt(o.value))
    case ConditionalStmt(c) => CondR(st, c)
    case ForStmt(f) => ForR(st, f)
    case FnStmt(f) => FnR(st, f)
  }

  /** A condition must be a `bool` expression; a condition without a type
      is read through NULL. */
  function ConditionR(st: AState, e: Expression, tok: Token): (r: Res<TypedExp>)
    requires Good(st)
    ensures r.Ok? ==> OnlyErrors(st, r.st)
  {
    var x := ExpR(st, e);
    if x.Undef? || x.value.dtype.None? then Undef
    else if x.value.dtype != Some(Simple(Bool))
    then Ok(WithError(x.st, TypeError, "condition must be a boolean expression", tok), x.value)
    else x
  }

  /** A non-empty block runs in a scope of its own; an empty one is skipped. */
  function ScopedR(st: AState, block: seq<Stmt>): (r: Res<seq<Stmt>>)
    requires Good(st)
    ensures r.Ok? ==> Good(r.st) && st.errors <= r.st.errors && r.st.source == st.source
    decreases block, 1
  {
    if |block| == 0 then Ok(st, block)
    else
      var b := BlockR(Extended(st), block, 0, []);
      if b.Undef? then Undef
      else
        var t := Shrunk(b.st);
        if t.None? then Undef else Ok(t.value, b.value)
  }

  /** `if`: the condition, then each branch in a scope of its own. */
  function CondR(st: AState, c: Conditional): (r: Res<Stmt>)
    requires Good(st)
    ensures r.Ok? ==> Good(r.st) && st.errors <= r.st.errors && r.st.source == st.source
    decreases c
  {
    var x := ConditionR(st, c.condition, c.token);
    if x.Undef? then Undef
    else
      var th := ScopedR(x.st, c.thenBlock);
      if th.Undef? then Undef
      else
        var el := ScopedR(th.st, c.elseBlock);
        if el.Undef? then Undef
        else Ok(el.st, ConditionalStmt(c.(condition := x.value.exp, thenBlock := th.value, elseBlock := el.value)))
  }

  /** `for`: a scope for the header, the initialiser, the condition and
      the step, then a non-empty body in a scope of its own one loop level
      deeper, then the header scope is dropped. */
  function ForR(st: AState, f: ForLoop): (r: Res<Stmt>)
    requires Good(st)
    ensures r.Ok? ==> Good(r.st) && st.errors <= r.st.errors && r.st.source == st.source
    decreases f, 1
  {
    var init := OnelinerR(Extended(st), f.init);
    if init.Undef? then Undef
    else
      var x := ConditionR(init.st, f.condition, f.token);
      if x.Undef? then Undef
      else
        var after := OnelinerR(x.st, f.after);
        if after.Undef? then Undef
        else
          var body := LoopBodyR(after.st, f);
          if body.Undef? then Undef
          else
            var t := Shrunk(body.st);
            if t.None? then Undef
            else Ok(t.value, ForStmt(f.(init := init.value, condition := x.value.exp, after := after.value, body := body.value)))
  }

  /** The body of a `for`: skipped when empty, otherwise run in a scope of
      its own with the loop depth one higher. */
  function LoopBodyR(st: AState, f: ForLoop): (r: Res<seq<Stmt>>)
    requires Good(st)
    ensures r.Ok? ==> Good(r.st) && st.errors <= r.st.errors && r.st.source == st.source
    decreases f, 0
  {
    if |f.body| == 0 then Ok(st, f.body)
    else
      var b := BlockR(Extended(st).(inLoop := st.inLoop + 1), f.body, 0, []);
      if b.Undef? then Undef
      else
        var t := Shrunk(b.st);
        if t.None? then Undef else Ok(t.value.(inLoop := t.value.inLoop - 1), b.value)
  }

  /** A function definition: the head binds the parameters and the
      function, then the body is checked as the current function. */
  function FnR(st: AState, f: FnDefinition): (r: Res<Stmt>)
    requires Good(st)
    ensures r.Ok? ==> Good(r.st) && st.errors <= r.st.errors && r.st.source == st.source
    ensures r.Ok? ==> r.st.fn.None?
    decreases f, 1
  {
    var h := FnHeadR(st, f);
    if h.None? then Undef else FnBodyR(h.value.(fn := Some(f.dtype)), f)
  }

  /** The head of a function definition: a name already bound in any scope
      is a redefinition; the parameters are bound in a new scope, and the
      function itself (when not a redefinition) in the scope that was
      innermost before. */
  function FnHeadR(st: AState, f: FnDefinition): (r: Option<AState>)
    requires Good(st)
    ensures r.Some? ==> Good(r.value) && st.errors <= r.value.errors && r.value.source == st.source
    ensures r.Some? ==> |r.value.scopes| == |st.scopes| + 1 && r.value.inLoop == st.inLoop
  {
    var found := Lookup(st, f.name);
    if found.None? then None
    else
      var redefined := found.value.Bound?;
      var st1 := if redefined then WithError(st, ReferenceError, "variable redefinition is not allowed", f.name) else st;
      var ps := ParamsR(Extended(st1), f.dtype.params, 0);
      if ps.None? then None
      else if redefined then ps
      else SetName(ps.value, f.name, Some(Complex(f.dtype)), |ps.value.scopes| - 2)
  }

  /** The body of a function definition, then its scope is dropped and no
      function is current any more. */
  function FnBodyR(st: AState, f: FnDefinition): (r: Res<Stmt>)
    requires Good(st)
    ensures r.Ok? ==> Good(r.st) && st.errors <= r.st.errors && r.st.source == st.source
    ensures r.Ok? ==> r.st.fn.None?
    decreases f, 0
  {
    var b := if |f.body| == 0 then Ok(st, f.body) else BlockR(st, f.body, 0, []);
    if b.Undef? then Undef
    else
      var t := Shrunk(b.st);
      if t.None? then Undef else Ok(t.value.(fn := None), FnStmt(f.(body := b.value)))
  }

  /** The parameter loop of a function definition. */
  function ParamsR(st: AState, params: seq<FnParam>, i: nat): (r: Option<AState>)
    requires Good(st) && i <= |params|
    ensures r.Some? ==> Good(r.value) && st.errors <= r.value.errors
    ensures r.Some? ==> r.value.source == st.source && r.value.fn == st.fn && r.value.inLoop == st.inLoop
    ensures r.Some? ==> |r.value.scopes| == |st.scopes|
    decreases |params| - i
  {
    if i == |params| then Some(st)
    else
      var s := ParamR(st, params[i]);
      if s.None? then None else ParamsR(s.value, params, i + 1)
  }

  /** One parameter: a name the new scope already binds is reported, any
      other is bound to its type. A parameter without a name is read
      through NULL. */
  function ParamR(st: AState, p: FnParam): (r: Option<AState>)
    requires Good(st)
    ensures r.Some? ==> Good(r.value) && st.errors <= r.value.errors
    ensures r.Some? ==> r.value.source == st.source && r.value.fn == st.fn && r.value.inLoop == st.inLoop
    ensures r.Some? ==> |r.value.scopes| == |st.scopes|
  {
    if p.name.None? then None
    else
      var here := DefinedHere(st, p.name.value);
      if here.None? then None
      else if here.value then
        Some(WithError(st, ReferenceError, "parameter with the same name already exists for given function", p.name.value))
      else SetName(st, p.name.value, p.dtype, -1)
  }

  // ---------------------------------------------------------------------
  // Properties of the analysis

  /** Binding a name keeps every scope table's invariant. */
  lemma SetNameKeepsInv(st: AState, tok: Token, v: Option<GenericType>, scope: int)
    requires Good(st) && Inv(st) && SetName(st, tok, v, scope).Some?
    ensures Inv(SetName(st, tok, v, scope).value)
  {
    var s := if scope == -1 then |st.scopes| - 1 else scope;
    SetKeepsInv(st.scopes[s], KeyOf(st, tok).value, v);
  }

  /** A fresh cache holds one empty scope, in which every lookup misses. */
  lemma FreshCacheEmpty(source: string, tok: Token)
    ensures Good(FreshState(source)) && Inv(FreshState(source))
    ensures Lookup(FreshState(source), tok).Some? ==> Lookup(FreshState(source), tok).value.Unbound?
  {
  }

  /** After a name is bound in the innermost scope to a type, looking it up
      finds that type at the innermost depth, shadowing outer bindings. */
  lemma DeclarationShadows(st: AState, tok: Token, v: GenericType)
    requires Good(st) && |st.scopes| > 0 && KeyOf(st, tok).Some?
    ensures SetName(st, tok, Some(v), -1).Some?
    ensures Lookup(SetName(st, tok, Some(v), -1).value, tok) == Some(Bound(v, |st.scopes| - 1))
  {
    var top := |st.scopes| - 1;
    GetAfterSet(st.scopes[top], KeyOf(st, tok).value, Some(v));
  }

  /** The scopes a statement opens minus the ones it closes: `{` opens one,
      `}` closes one, and a compound statement nets what its blocks net. */
  function Net(s: Stmt): int
    decreases s, 1
  {
    match s
    case OpenScopeStmt(_) => 1
    case CloseScopeStmt(_) => -1
    case ConditionalStmt(c) => NetFrom(c.thenBlock, 0) + NetFrom(c.elseBlock, 0)
    case ForStmt(f) => NetFrom(f.body, 0)
    case FnStmt(f) => NetFrom(f.body, 0)
    case _ => 0
  }

  /** `Net` summed over `stmts[i..]`. */
  function NetFrom(stmts: seq<Stmt>, i: nat): int
    requires i <= |stmts|
    decreases stmts, 0, |stmts| - i
  {
    if i == |stmts| then 0 else Net(stmts[i]) + NetFrom(stmts, i + 1)
  }

  /** A block changes the scope count by its `Net` and leaves the loop
      depth as it found it. */
  lemma {:induction false} BlockBalance(st: AState, stmts: seq<Stmt>, i: nat, acc: seq<Stmt>, r: Res<seq<Stmt>>)
    requires Good(st) && i <= |stmts| && r == BlockR(st, stmts, i, acc) && r.Ok?
    ensures |r.st.scopes| == |st.scopes| + NetFrom(stmts, i) && r.st.inLoop == st.inLoop
    decreases stmts, 0, |stmts| - i
  {
    if i < |stmts| {
      var s := StmtR(st, stmts[i]);
      StmtBalance(st, stmts[i], s);
      BlockBalance(s.st, stmts, i + 1, acc + [s.value], r);
    }
  }

  /** `{` pushes one scope and `}` pops one; `if`, `for` and function
      statements change the count only by what their blocks net, so with
      balanced blocks they leave it as they found it. No statement changes
      the loop depth. */
  lemma {:induction false} StmtBalance(st: AState, s: Stmt, r: Res<Stmt>)
    requires Good(st) && r == StmtR(st, s) && r.Ok?
    ensures |r.st.scopes| == |st.scopes| + Net(s) && r.st.inLoop == st.inLoop
    decreases s, 1
  {
    match s
    case ConditionalStmt(c) => CondBalance(st, c, r);
    case ForStmt(f) => ForBalance(st, f, r);
    case FnStmt(f) => FnBalance(st, f, r);
    case _ =>
  }

  lemma {:induction false} ScopedBalance(st: AState, block: seq<Stmt>, r: Res<seq<Stmt>>)
    requires Good(st) && r == ScopedR(st, block) && r.Ok?
    ensures |r.st.scopes| == |st.scopes| + NetFrom(block, 0) && r.st.inLoop == st.inLoop
    decreases block, 1
  {
    if |block| > 0 {
      BlockBalance(Extended(st), block, 0, [], BlockR(Extended(st), block, 0, []));
    }
  }

  lemma {:induction false} CondBalance(st: AState, c: Conditional, r: Res<Stmt>)
    requires Good(st) && r == CondR(st, c) && r.Ok?
    ensures |r.st.scopes| == |st.scopes| + NetFrom(c.thenBlock, 0) + NetFrom(c.elseBlock, 0)
    ensures r.st.inLoop == st.inLoop
    decreases c
  {
    var x := ConditionR(st, c.condition, c.token);
    var th := ScopedR(x.st, c.thenBlock);
    ScopedBalance(x.st, c.thenBlock, th);
    ScopedBalance(th.st, c.elseBlock, ScopedR(th.st, c.elseBlock));
  }

  lemma {:induction false} ForBalance(st: AState, f: ForLoop, r: Res<Stmt>)
    requires Good(st) && r == ForR(st, f) && r.Ok?
    ensures |r.st.scopes| == |st.scopes| + NetFrom(f.body, 0) && r.st.inLoop == st.inLoop
    decreases f, 1
  {
    var init := OnelinerR(Extended(st), f.init);
    var x := ConditionR(init.st, f.condition, f.token);
    var after := OnelinerR(x.st, f.after);
    LoopBodyBalance(after.st, f, LoopBodyR(after.st, f));
  }

  lemma {:induction false} LoopBodyBalance(st: AState, f: ForLoop, r: Res<seq<Stmt>>)
    requires Good(st) && r == LoopBodyR(st, f) && r.Ok?
    ensures |r.st.scopes| == |st.scopes| + NetFrom(f.body, 0) && r.st.inLoop == st.inLoop
    decreases f, 0
  {
    if |f.body| > 0 {
      var inner := Extended(st).(inLoop := st.inLoop + 1);
      BlockBalance(inner, f.body, 0, [], BlockR(inner, f.body, 0, []));
    }
  }

  lemma {:induction false} FnBalance(st: AState, f: FnDefinition, r: Res<Stmt>)
    requires Good(st) && r == FnR(st, f) && r.Ok?
    ensures |r.st.scopes| == |st.scopes| + NetFrom(f.body, 0) && r.st.inLoop == st.inLoop
    decreases f, 1
  {
    var h := FnHeadR(st, f).value.(fn := Some(f.dtype));
    if |f.body| > 0 {
      BlockBalance(h, f.body, 0, [], BlockR(h, f.body, 0, []));
    }
  }

  /** `x := e` where the innermost scope already binds `x`: a
      ReferenceError is reported before anything the expression reports,
      and no binding changes. */
  lemma ColonEqRedefinition(st: AState, ass: Assignment, r: Res<Oneliner>)
    requires Good(st) && r == AssignR(st, ass) && r.Ok?
    requires ass.op.ttype.ColEq? && ass.newVar && DefinedHere(st, ass.variable) == Some(true)
    ensures st.errors + [Error(ReferenceError, "variable redefinition is not allowed", ass.variable)] <= r.st.errors
    ensures r.st.scopes == st.scopes
  {
    var st1 := WithError(st, ReferenceError, "variable redefinition is not allowed", ass.variable);
    var e := ExpR(st1, ass.exp.value);
    assert st1.errors <= e.st.errors;
  }

  /** `x := e` where the innermost scope does not bind `x`: `x` is bound
      there to the type of `e`, and the assignment records that type and
      the innermost depth (-1 inside a function). */
  lemma ColonEqDeclares(st: AState, ass: Assignment, r: Res<Oneliner>)
    requires Good(st) && r == AssignR(st, ass) && r.Ok?
    requires ass.op.ttype.ColEq? && DefinedHere(st, ass.variable) == Some(false)
    ensures ass.exp.Some? && ExpR(st, ass.exp.value).Ok?
    ensures var e := ExpR(st, ass.exp.value).value;
      r.value.assignment.dtype == e.dtype && r.value.assignment.scope == ScopeFor(st, |st.scopes| - 1) &&
      (e.dtype.Some? ==> Lookup(r.st, ass.variable) == Some(Bound(e.dtype.value, |st.scopes| - 1)))
  {
    AssignIsDeclare(st, ass, r);
    var e := ExpR(st, ass.exp.value);
    DeclareBinds(e.st, ass.(exp := Some(e.value.exp)), e.value.dtype, r);
  }

  /** An assignment with `:=` to a name new to the innermost scope is the
      declaration step after its expression. */
  lemma AssignIsDeclare(st: AState, ass: Assignment, r: Res<Oneliner>)
    requires Good(st) && r == AssignR(st, ass) && r.Ok?
    requires ass.op.ttype.ColEq? && DefinedHere(st, ass.variable) == Some(false)
    ensures ass.exp.Some? && ExpR(st, ass.exp.value).Ok?
    ensures var e := ExpR(st, ass.exp.value);
      OnlyErrors(st, e.st) && r == DeclareR(e.st, ass.(exp := Some(e.value.exp)), e.value.dtype, false)
  {
  }

  /** A `:=` of a name new to the innermost scope. */
  lemma DeclareBinds(st: AState, ass: Assignment, et: Option<GenericType>, r: Res<Oneliner>)
    requires Good(st) && r == DeclareR(st, ass, et, false) && r.Ok?
    ensures r.value.assignment.dtype == et && r.value.assignment.scope == ScopeFor(st, |st.scopes| - 1)
    ensures et.Some? ==> Lookup(r.st, ass.variable) == Some(Bound(et.value, |st.scopes| - 1))
  {
    if et.Some? {
      DeclarationShadows(st, ass.variable, et.value);
    }
  }

  /** The parameter loop binds names only in the innermost scope. */
  lemma {:induction false} ParamsKeepOuter(st: AState, params: seq<FnParam>, i: nat, r: Option<AState>)
    requires Good(st) && i <= |params| && r == ParamsR(st, params, i) && r.Some? && |st.scopes| > 0
    ensures r.value.scopes[..|st.scopes| - 1] == st.scopes[..|st.scopes| - 1]
    decreases |params| - i
  {
    if i < |params| {
      var s := ParamR(st, params[i]).value;
      assert s.scopes[..|st.scopes| - 1] == st.scopes[..|st.scopes| - 1];
      ParamsKeepOuter(s, params, i + 1, r);
    }
  }

  /** A function definition whose name some scope already binds is a
      ReferenceError, and its head leaves every enclosing scope as it was:
      the name is not rebound. */
  lemma FnRedefinition(st: AState, f: FnDefinition, h: Option<AState>)
    requires Good(st) && h == FnHeadR(st, f) && h.Some?
    requires DefinedAnywhere(st, f.name) == Some(true)
    ensures st.errors + [Error(ReferenceError, "variable redefinition is not allowed", f.name)] <= h.value.errors
    ensures h.value.scopes[..|st.scopes|] == st.scopes
  {
    var st1 := WithError(st, ReferenceError, "variable redefinition is not allowed", f.name);
    ParamsKeepOuter(Extended(st1), f.dtype.params, 0, h);
  }

  /** A function definition whose name no scope binds binds it to its
      function type in the scope enclosing the parameter scope, and no
      other enclosing scope changes. */
  lemma FnBindsName(st: AState, f: FnDefinition, h: Option<AState>)
    requires Good(st) && |st.scopes| > 0 && h == FnHeadR(st, f) && h.Some?
    requires DefinedAnywhere(st, f.name) == Some(false)
    ensures KeyOf(st, f.name).Some?
    ensures TableGet(h.value.scopes[|st.scopes| - 1], KeyOf(st, f.name).value) == Some(Complex(f.dtype))
    ensures h.value.scopes[..|st.scopes| - 1] == st.scopes[..|st.scopes| - 1]
  {
    var ps := ParamsR(Extended(st), f.dtype.params, 0);
    ParamsKeepOuter(Extended(st), f.dtype.params, 0, ps);
    assert ps.value.scopes[|st.scopes| - 1] == st.scopes[|st.scopes| - 1];
    GetAfterSet(ps.value.scopes[|st.scopes| - 1], KeyOf(st, f.name).value, Some(Complex(f.dtype)));
  }

  /** The innermost scope binds `key` to a type. */
  ghost predicate BoundHere(st: AState, key: string)
    requires Good(st)
  {
    |st.scopes| > 0 && TableGet(st.scopes[|st.scopes| - 1], key).Some?
  }

  /** One parameter step keeps the invariant, keeps a name bound in the
      innermost scope bound, and leaves the parameter's own name bound when
      it has a type. */
  lemma ParamStep(st: AState, p: FnParam, key: string)
    requires Good(st) && Inv(st) && ParamR(st, p).Some?
    ensures Inv(ParamR(st, p).value)
    ensures BoundHere(st, key) ==> BoundHere(ParamR(st, p).value, key)
    ensures p.dtype.Some? ==> BoundHere(ParamR(st, p).value, KeyOf(st, p.name.value).value)
  {
    var name := p.name.value;
    if DefinedHere(st, name) == Some(false) {
      var top := |st.scopes| - 1;
      var k := KeyOf(st, name).value;
      SetNameKeepsInv(st, name, p.dtype, -1);
      GetAfterSet(st.scopes[top], k, p.dtype);
      if k != key {
        GetOtherAfterSet(st.scopes[top], k, p.dtype, key);
      }
    }
  }

  /** Once `key` is bound in the innermost scope, a later parameter that
      spells it is reported. */
  lemma {:induction false} DuplicateFrom(st: AState, params: seq<FnParam>, k: nat, j: nat, key: string, r: Option<AState>)
    requires Good(st) && Inv(st) && k <= j < |params| && BoundHere(st, key)
    requires params[j].name.Some? && KeyOf(st, params[j].name.value) == Some(key)
    requires r == ParamsR(st, params, k) && r.Some?
    ensures Error(ReferenceError, "parameter with the same name already exists for given function", params[j].name.value)
              in r.value.errors
    decreases j - k
  {
    var s := ParamR(st, params[k]).value;
    if k == j {
      assert s.errors[|s.errors| - 1] == Error(ReferenceError, "parameter with the same name already exists for given function", params[j].name.value);
      assert s.errors <= r.value.errors;
    } else {
      ParamStep(st, params[k], key);
      DuplicateFrom(s, params, k + 1, j, key, r);
    }
  }

  /** Two parameters spelling the same name, the first with a type: the
      second is reported as a ReferenceError. */
  lemma {:induction false} DuplicateParamReported(st: AState, params: seq<FnParam>, k: nat, i: nat, j: nat, r: Option<AState>)
    requires Good(st) && Inv(st) && k <= i < j < |params|
    requires params[i].name.Some? && params[j].name.Some? && params[i].dtype.Some?
    requires KeyOf(st, params[i].name.value).Some? && KeyOf(st, params[i].name.value) == KeyOf(st, params[j].name.value)
    requires r == ParamsR(st, params, k) && r.Some?
    ensures Error(ReferenceError, "parameter with the same name already exists for given function", params[j].name.value)
              in r.value.errors
    decreases i - k
  {
    var s := ParamR(st, params[k]).value;
    var key := KeyOf(st, params[i].name.value).value;
    ParamStep(st, params[k], key);
    if k == i {
      DuplicateFrom(s, params, k + 1, j, key, r);
    } else {
      DuplicateParamReported(s, params, k + 1, i, j, r);
    }
  }

  /** The errors added from `st` to `st2` are none of them SyntaxErrors. */
  ghost predicate NoSyntaxAdded(st: AState, st2: AState)
  {
    st.errors <= st2.errors && forall k :: |st.errors| <= k < |st2.errors| ==> !st2.errors[k].kind.SyntaxError?
  }

  /** Expressions report only type and reference errors. */
  lemma {:induction false} ExpNoSyntax(st: AState, e: Expression, r: Res<TypedExp>)
    requires Good(st) && r == ExpR(st, e) && r.Ok?
    ensures NoSyntaxAdded(st, r.st)
    decreases e, 0, 0
  {
    match e
    case ExpExp(op) =>
      var t := op.token.ttype;
      if t.Lt? || t.Gt? || t.GtE? || t.LtE? || t.Plus? || t.Minus? || t.Star? || t.Slash? || t.Mod? {
        OperandsNoSyntax(st, op, Int, "expected int", r);
      } else if t.Not? {
        var sub := ExpR(st, op.left.value);
        ExpNoSyntax(st, op.left.value, sub);
      } else if t.Or? || t.And? {
        OperandsNoSyntax(st, op, Bool, "expected bool", r);
      } else if t.NotEq? || t.EqEq? {
        var l := ExpR(st, op.left.value);
        ExpNoSyntax(st, op.left.value, l);
        ExpNoSyntax(l.st, op.right.value, ExpR(l.st, op.right.value));
      }
    case FnCallExp(c) => CallNoSyntax(st, c, r);
  }

  lemma {:induction false} OperandsNoSyntax(st: AState, op: OpExpression, want: DataType, rightMessage: string, r: Res<TypedExp>)
    requires Good(st) && r == OperandsR(st, op, want, rightMessage) && r.Ok?
    ensures NoSyntaxAdded(st, r.st)
    decreases op, 0, 0
  {
    var l := ExpR(st, op.left.value);
    ExpNoSyntax(st, op.left.value, l);
    var st1 := if l.value.dtype != Some(Simple(want))
      then WithError(l.st, TypeError, "invalid operation for given type", op.token) else l.st;
    ExpNoSyntax(st1, op.right.value, ExpR(st1, op.right.value));
  }

  lemma {:induction false} CallNoSyntax(st: AState, c: Call, r: Res<TypedExp>)
    requires Good(st) && r == CallR(st, c) && r.Ok?
    ensures NoSyntaxAdded(st, r.st)
    decreases c, 1, 0
  {
    var b := Lookup(st, c.name);
    var isFn := b.value.Bound? && b.value.dtype.Complex?;
    var st1 :=
      if b.value.Unbound? then WithError(st, ReferenceError, "undefined function", c.name)
      else if !isFn then WithError(st, TypeError, "not a function", c.name)
      else st;
    var params := if isFn then b.value.dtype.fn.params else [];
    var check := isFn && |c.args| == |params|;
    var st2 := if !check then WithError(st1, TypeError, "wrong number of arguments", c.name) else st1;
    var args := ArgsR(st2, c, check, params, "argument has wrong type", 0, []);
    ArgsNoSyntax(st2, c, check, params, "argument has wrong type", 0, [], args);
  }

  lemma {:induction false} ArgsNoSyntax(st: AState, c: Call, check: bool, params: seq<FnParam>, message: string, i: nat,
                                         acc: seq<Expression>, r: Res<seq<Expression>>)
    requires Good(st) && i <= |c.args| && (check ==> |params| == |c.args|)
    requires r == ArgsR(st, c, check, params, message, i, acc) && r.Ok?
    ensures NoSyntaxAdded(st, r.st)
    decreases c, 0, |c.args| - i
  {
    if i < |c.args| {
      var a := ExpR(st, c.args[i]);
      ExpNoSyntax(st, c.args[i], a);
      var st1 := if check && !TypeCompare(a.value.dtype, params[i].dtype)
        then WithError(a.st, TypeError, message, c.name) else a.st;
      ArgsNoSyntax(st1, c, check, params, message, i + 1, acc + [a.value.exp], r);
    }
  }

  /** Assignments and call statements report only type and reference
      errors. */
  lemma OnelinerNoSyntax(st: AState, ol: Oneliner, r: Res<Oneliner>)
    requires Good(st) && r == OnelinerR(st, ol) && r.Ok?
    ensures NoSyntaxAdded(st, r.st)
  {
    match ol
    case AssignmentOL(ass) => AssignNoSyntax(st, ass, r);
    case CallOL(c) => CallStmtNoSyntax(st, c, r);
  }

  lemma AssignNoSyntax(st: AState, ass: Assignment, r: Res<Oneliner>)
    requires Good(st) && r == AssignR(st, ass) && r.Ok?
    ensures NoSyntaxAdded(st, r.st)
  {
    var here := DefinedHere(st, ass.variable);
    var st1 := if ass.newVar && here.value
      then WithError(st, ReferenceError, "variable redefinition is not allowed", ass.variable) else st;
    var t := ass.op.ttype;
    if t.Inc? || t.Dec? {
      StepNoSyntax(st1, ass, r);
    } else {
      var e := ExpR(st1, ass.exp.value);
      ExpNoSyntax(st1, ass.exp.value, e);
      var ass1 := ass.(exp := Some(e.value.exp));
      if t.PlusEq? || t.MinusEq? || t.StarEq? || t.SlashEq? || t.ModEq? {
        CompoundNoSyntax(e.st, ass1, e.value.dtype, r);
      } else if !t.ColEq? {
        PlainNoSyntax(e.st, ass1, e.value.dtype, here.value, r);
      }
    }
  }

  lemma StepNoSyntax(st: AState, ass: Assignment, r: Res<Oneliner>)
    requires Good(st) && r == StepR(st, ass) && r.Ok?
    ensures NoSyntaxAdded(st, r.st)
  {
  }

  lemma CompoundNoSyntax(st: AState, ass: Assignment, et: Option<GenericType>, r: Res<Oneliner>)
    requires Good(st) && r == CompoundR(st, ass, et) && r.Ok?
    ensures NoSyntaxAdded(st, r.st)
  {
  }

  lemma PlainNoSyntax(st: AState, ass: Assignment, et: Option<GenericType>, here: bool, r: Res<Oneliner>)
    requires Good(st) && r == PlainR(st, ass, et, here) && r.Ok?
    ensures NoSyntaxAdded(st, r.st)
  {
  }

  lemma CallStmtNoSyntax(st: AState, c: Call, r: Res<Oneliner>)
    requires Good(st) && r == CallStmtR(st, c) && r.Ok?
    ensures NoSyntaxAdded(st, r.st)
  {
    var b := Lookup(st, c.name);
    var isFn := b.value.Bound? && b.value.dtype.Complex?;
    var returnsVoid := isFn && b.value.dtype.fn.returnType == Some(Simple(Void));
    var st1 :=
      if b.value.Unbound? then WithError(st, ReferenceError, "undefined function", c.name)
      else if !isFn then WithError(st, TypeError, "is not a function", c.name)
      else if !returnsVoid then WithError(st, TypeError, "void call returns a value", c.name)
      else st;
    var params := if isFn then b.value.dtype.fn.params else [];
    var check := isFn && |c.args| == |params|;
    ArgsNoSyntax(st1, c, check, params, "wrong parameter type for the function", 0, [],
                 ArgsR(st1, c, check, params, "wrong parameter type for the function", 0, []));
  }

  /** A `break` as the body of a `while` (a conditional statement) outside
      any loop is a SyntaxError: conditionals do not raise the loop depth. */
  lemma WhileBreakRejected(st: AState, c: Conditional, tok: Token, r: Res<Stmt>)
    requires Good(st) && st.inLoop == 0 && c.thenBlock == [BreakStmt(tok)]
    requires r == StmtR(st, ConditionalStmt(c)) && r.Ok?
    ensures Error(SyntaxError, "break statement outside of a loop", tok) in r.st.errors
  {
    assert r == CondR(st, c);
    var x := ConditionR(st, c.condition, c.token);
    var inner := Extended(x.st);
    var s := StmtR(inner, BreakStmt(tok));
    assert s == Ok(WithError(inner, SyntaxError, "break statement outside of a loop", tok), BreakStmt(tok));
    var b := BlockR(inner, c.thenBlock, 0, []);
    assert b == BlockR(s.st, c.thenBlock, 1, [] + [s.value]) == Ok(s.st, [] + [s.value]);
    var th := ScopedR(x.st, c.thenBlock);
    assert th.st.errors == s.st.errors;
    var el := ScopedR(th.st, c.elseBlock);
    assert r.st == el.st;
    var k := |s.st.errors| - 1;
    assert s.st.errors[k] == Error(SyntaxError, "break statement outside of a loop", tok);
    assert el.st.errors[k] == s.st.errors[k];
  }

  /** A `break` as the body of a `for` is accepted: nothing the loop
      reports is a SyntaxError. */
  lemma ForBreakAccepted(st: AState, f: ForLoop, tok: Token, r: Res<Stmt>)
    requires Good(st) && st.inLoop >= 0 && f.body == [BreakStmt(tok)]
    requires r == StmtR(st, ForStmt(f)) && r.Ok?
    ensures NoSyntaxAdded(st, r.st)
  {
    ForBodyBreak(st, f, tok, r);
  }

  lemma ForBodyBreak(st: AState, f: ForLoop, tok: Token, r: Res<Stmt>)
    requires Good(st) && st.inLoop >= 0 && f.body == [BreakStmt(tok)]
    requires r == ForR(st, f) && r.Ok?
    ensures NoSyntaxAdded(st, r.st)
  {
    var st0 := Extended(st);
    var init := OnelinerR(st0, f.init);
    OnelinerNoSyntax(st0, f.init, init);
    var cond := ConditionR(init.st, f.condition, f.token);
    ConditionNoSyntax(init.st, f.condition, f.token, cond);
    var after := OnelinerR(cond.st, f.after);
    OnelinerNoSyntax(cond.st, f.after, after);
    NoSyntaxTrans(st0, init.st, cond.st);
    NoSyntaxTrans(st0, cond.st, after.st);
    BreakBodyQuiet(after.st, f, tok, LoopBodyR(after.st, f));
  }

  lemma ConditionNoSyntax(st: AState, e: Expression, tok: Token, r: Res<TypedExp>)
    requires Good(st) && r == ConditionR(st, e, tok) && r.Ok?
    ensures NoSyntaxAdded(st, r.st)
  {
    ExpNoSyntax(st, e, ExpR(st, e));
  }

  lemma NoSyntaxTrans(a: AState, b: AState, c: AState)
    requires NoSyntaxAdded(a, b) && NoSyntaxAdded(b, c)
    ensures NoSyntaxAdded(a, c)
  {
    forall k | |a.errors| <= k < |c.errors|
      ensures !c.errors[k].kind.SyntaxError?
    {
      if k < |b.errors| {
        assert c.errors[k] == b.errors[k];
      }
    }
  }

  /** One loop level down, a `break` body reports nothing. */
  lemma BreakBodyQuiet(st: AState, f: ForLoop, tok: Token, r: Res<seq<Stmt>>)
    requires Good(st) && st.inLoop >= 0 && f.body == [BreakStmt(tok)]
    requires r == LoopBodyR(st, f)
    ensures r.Ok? && r.st.errors == st.errors
  {
    var inner := Extended(st).(inLoop := st.inLoop + 1);
    var s := StmtR(inner, BreakStmt(tok));
    assert s == Ok(inner, BreakStmt(tok));
    assert BlockR(inner, f.body, 0, []) == BlockR(s.st, f.body, 1, [] + [s.value]) == Ok(inner, [] + [s.value]);
  }

  // ---------------------------------------------------------------------
  // Loop depth and the reports of `break` and `continue`

  /** The message a `break` or `continue` outside every loop is reported with. */
  function JumpMessage(s: Stmt): (m: string)
    requires s.BreakStmt? || s.ContinueStmt?
    ensures s.BreakStmt? ==> m == "break statement outside of a loop"
    ensures s.ContinueStmt? ==> m == "continue statement outside of a loop"
  {
    if s.BreakStmt? then "break statement outside of a loop" else "continue statement outside of a loop"
  }

  /** A report of a `break` or `continue` outside every loop. */
  predicate IsJumpError(e: Error)
  {
    e.kind.SyntaxError? &&
    (e.message == "break statement outside of a loop" || e.message == "continue statement outside of a loop")
  }

  /** The errors added from `st` to `st2` report no `break` or `continue`. */
  ghost predicate NoJumpAdded(st: AState, st2: AState)
  {
    st.errors <= st2.errors && forall k :: |st.errors| <= k < |st2.errors| ==> !IsJumpError(st2.errors[k])
  }

  lemma NoJumpTrans(a: AState, b: AState, c: AState)
    requires NoJumpAdded(a, b) && NoJumpAdded(b, c)
    ensures NoJumpAdded(a, c)
  {
    forall k | |a.errors| <= k < |c.errors|
      ensures !IsJumpError(c.errors[k])
    {
      if k < |b.errors| {
        assert c.errors[k] == b.errors[k];
      }
    }
  }

  lemma NoSyntaxNoJump(a: AState, b: AState)
    requires NoSyntaxAdded(a, b)
    ensures NoJumpAdded(a, b)
  {
  }

  /** Outside every loop, each `break` and `continue` among `stmts[i..]` is
      reported, with its own message and token, among the errors the block
      adds: no statement of the block changes the loop depth. */
  lemma {:induction false} JumpsReported(st: AState, stmts: seq<Stmt>, i: nat, acc: seq<Stmt>, r: Res<seq<Stmt>>, k: nat)
    requires Good(st) && st.inLoop == 0 && i <= k < |stmts| && r == BlockR(st, stmts, i, acc) && r.Ok?
    requires stmts[k].BreakStmt? || stmts[k].ContinueStmt?
    ensures Error(SyntaxError, JumpMessage(stmts[k]), stmts[k].token) in r.st.errors[|st.errors|..]
    decreases |stmts| - i
  {
    var s := StmtR(st, stmts[i]);
    StmtBalance(st, stmts[i], s);
    var rest := BlockR(s.st, stmts, i + 1, acc + [s.value]);
    assert r == rest;
    if k == i {
      assert s.st.errors == st.errors + [Error(SyntaxError, JumpMessage(stmts[k]), stmts[k].token)];
      assert r.st.errors[|st.errors|] == s.st.errors[|st.errors|];
    } else {
      JumpsReported(s.st, stmts, i + 1, acc + [s.value], rest, k);
      assert r.st.errors[|s.st.errors|..] == r.st.errors[|st.errors|..][|s.st.errors| - |st.errors|..];
    }
  }

  /** Inside a loop, a block reports no `break` or `continue`, however
      deeply they are nested in it. */
  lemma {:induction false} BlockJumpFree(st: AState, stmts: seq<Stmt>, i: nat, acc: seq<Stmt>, r: Res<seq<Stmt>>)
    requires Good(st) && st.inLoop > 0 && i <= |stmts| && r == BlockR(st, stmts, i, acc) && r.Ok?
    ensures NoJumpAdded(st, r.st)
    decreases stmts, 0, |stmts| - i
  {
    if i < |stmts| {
      var s := StmtR(st, stmts[i]);
      StmtJumpFree(st, stmts[i], s);
      StmtBalance(st, stmts[i], s);
      BlockJumpFree(s.st, stmts, i + 1, acc + [s.value], r);
      NoJumpTrans(st, s.st, r.st);
    }
  }

  lemma {:induction false} StmtJumpFree(st: AState, s: Stmt, r: Res<Stmt>)
    requires Good(st) && st.inLoop > 0 && r == StmtR(st, s) && r.Ok?
    ensures NoJumpAdded(st, r.st)
    decreases s, 1
  {
    match s
    case ReturnStmt(tok, e) => ReturnJumpFree(st, s, r);
    case OnelinerStmt(ol) =>
      OnelinerNoSyntax(st, ol, OnelinerR(st, ol));
    case ConditionalStmt(c) => CondJumpFree(st, c, r);
    case ForStmt(f) => ForJumpFree(st, f, r);
    case FnStmt(f) => FnJumpFree(st, f, r);
    case _ =>
  }

  /** A `return` reports only its own SyntaxError and what its
      expression reports. */
  lemma ReturnJumpFree(st: AState, s: Stmt, r: Res<Stmt>)
    requires Good(st) && s.ReturnStmt? && r == StmtR(st, s) && r.Ok?
    ensures NoJumpAdded(st, r.st)
  {
    if st.fn.Some? && s.exp.Some? {
      var x := ExpR(st, s.exp.value);
      ExpNoSyntax(st, s.exp.value, x);
      NoSyntaxNoJump(st, x.st);
      assert NoJumpAdded(x.st, r.st);
      NoJumpTrans(st, x.st, r.st);
    }
  }

  lemma {:induction false} ScopedJumpFree(st: AState, block: seq<Stmt>, r: Res<seq<Stmt>>)
    requires Good(st) && st.inLoop > 0 && r == ScopedR(st, block) && r.Ok?
    ensures NoJumpAdded(st, r.st)
    decreases block, 1
  {
    if |block| > 0 {
      BlockJumpFree(Extended(st), block, 0, [], BlockR(Extended(st), block, 0, []));
    }
  }

  lemma {:induction false} CondJumpFree(st: AState, c: Conditional, r: Res<Stmt>)
    requires Good(st) && st.inLoop > 0 && r == CondR(st, c) && r.Ok?
    ensures NoJumpAdded(st, r.st)
    decreases c
  {
    var x := ConditionR(st, c.condition, c.token);
    ConditionNoSyntax(st, c.condition, c.token, x);
    NoSyntaxNoJump(st, x.st);
    var th := ScopedR(x.st, c.thenBlock);
    ScopedJumpFree(x.st, c.thenBlock, th);
    ScopedBalance(x.st, c.thenBlock, th);
    var el := ScopedR(th.st, c.elseBlock);
    ScopedJumpFree(th.st, c.elseBlock, el);
    NoJumpTrans(st, x.st, th.st);
    NoJumpTrans(st, th.st, el.st);
  }

  /** A `for` at any depth reports no `break` or `continue`: its body runs
      one loop level deeper than the statement. */
  lemma {:induction false} ForJumpFree(st: AState, f: ForLoop, r: Res<Stmt>)
    requires Good(st) && st.inLoop >= 0 && r == ForR(st, f) && r.Ok?
    ensures NoJumpAdded(st, r.st)
    decreases f, 1
  {
    var st0 := Extended(st);
    var init := OnelinerR(st0, f.init);
    OnelinerNoSyntax(st0, f.init, init);
    var cond := ConditionR(init.st, f.condition, f.token);
    ConditionNoSyntax(init.st, f.condition, f.token, cond);
    var after := OnelinerR(cond.st, f.after);
    OnelinerNoSyntax(cond.st, f.after, after);
    NoSyntaxTrans(st0, init.st, cond.st);
    NoSyntaxTrans(st0, cond.st, after.st);
    NoSyntaxNoJump(st0, after.st);
    var body := LoopBodyR(after.st, f);
    LoopBodyJumpFree(after.st, f, body);
    NoJumpTrans(st0, after.st, body.st);
  }

  lemma {:induction false} LoopBodyJumpFree(st: AState, f: ForLoop, r: Res<seq<Stmt>>)
    requires Good(st) && st.inLoop >= 0 && r == LoopBodyR(st, f) && r.Ok?
    ensures NoJumpAdded(st, r.st)
    decreases f, 0
  {
    if |f.body| > 0 {
      var inner := Extended(st).(inLoop := st.inLoop + 1);
      BlockJumpFree(inner, f.body, 0, [], BlockR(inner, f.body, 0, []));
    }
  }

  lemma {:induction false} FnJumpFree(st: AState, f: FnDefinition, r: Res<Stmt>)
    requires Good(st) && st.inLoop > 0 && r == FnR(st, f) && r.Ok?
    ensures NoJumpAdded(st, r.st)
    decreases f, 1
  {
    var h := FnHeadR(st, f);
    FnHeadNoSyntax(st, f, h);
    NoSyntaxNoJump(st, h.value);
    var h1 := h.value.(fn := Some(f.dtype));
    if |f.body| > 0 {
      var b := BlockR(h1, f.body, 0, []);
      BlockJumpFree(h1, f.body, 0, [], b);
      NoJumpTrans(st, h1, b.st);
    }
  }

  /** The head of a function definition reports only reference errors. */
  lemma FnHeadNoSyntax(st: AState, f: FnDefinition, h: Option<AState>)
    requires Good(st) && h == FnHeadR(st, f) && h.Some?
    ensures NoSyntaxAdded(st, h.value)
  {
    var found := Lookup(st, f.name);
    var redefined := found.value.Bound?;
    var st1 := if redefined then WithError(st, ReferenceError, "variable redefinition is not allowed", f.name) else st;
    var ps := ParamsR(Extended(st1), f.dtype.params, 0);
    ParamsNoSyntax(Extended(st1), f.dtype.params, 0, ps);
    NoSyntaxTrans(st, Extended(st1), ps.value);
  }

  lemma {:induction false} ParamsNoSyntax(st: AState, params: seq<FnParam>, i: nat, r: Option<AState>)
    requires Good(st) && i <= |params| && r == ParamsR(st, params, i) && r.Some?
    ensures NoSyntaxAdded(st, r.value)
    decreases |params| - i
  {
    if i < |params| {
      var s := ParamR(st, params[i]);
      ParamsNoSyntax(s.value, params, i + 1, r);
      NoSyntaxTrans(st, s.value, r.value);
    }
  }

  /** A conditional statement runs both branches at its own loop depth: outside
      every loop, each `break` and `continue` at the top of either branch is
      reported among the errors the statement adds. */
  lemma CondJumpsReported(st: AState, c: Conditional, r: Res<Stmt>, inElse: bool, k: nat)
    requires Good(st) && st.inLoop == 0 && r == CondR(st, c) && r.Ok?
    requires k < |if inElse then c.elseBlock else c.thenBlock|
    requires var block := if inElse then c.elseBlock else c.thenBlock;
      block[k].BreakStmt? || block[k].ContinueStmt?
    ensures var block := if inElse then c.elseBlock else c.thenBlock;
      Error(SyntaxError, JumpMessage(block[k]), block[k].token) in r.st.errors[|st.errors|..]
  {
    var x := ConditionR(st, c.condition, c.token);
    var th := ScopedR(x.st, c.thenBlock);
    var el := ScopedR(th.st, c.elseBlock);
    if inElse {
      ScopedBalance(x.st, c.thenBlock, th);
      ScopedJumpsReported(th.st, c.elseBlock, el, k);
      ErrorKept(st, th.st, el.st, Error(SyntaxError, JumpMessage(c.elseBlock[k]), c.elseBlock[k].token));
    } else {
      var e := Error(SyntaxError, JumpMessage(c.thenBlock[k]), c.thenBlock[k].token);
      ScopedJumpsReported(x.st, c.thenBlock, th, k);
      ErrorKept(st, x.st, th.st, e);
      ErrorKept(st, th.st, el.st, e);
    }
  }

  /** A block in a scope of its own runs at the loop depth it is at. */
  lemma ScopedJumpsReported(st: AState, block: seq<Stmt>, r: Res<seq<Stmt>>, k: nat)
    requires Good(st) && st.inLoop == 0 && r == ScopedR(st, block) && r.Ok?
    requires k < |block| && (block[k].BreakStmt? || block[k].ContinueStmt?)
    ensures Error(SyntaxError, JumpMessage(block[k]), block[k].token) in r.st.errors[|st.errors|..]
  {
    var b := BlockR(Extended(st), block, 0, []);
    JumpsReported(Extended(st), block, 0, [], b, k);
    assert r.st.errors == b.st.errors;
  }

  /** An error added after `b` stays among those added after `a <= b`. */
  lemma ErrorKept(a: AState, b: AState, c: AState, e: Error)
    requires a.errors <= b.errors <= c.errors
    requires e in c.errors[|b.errors|..] || e in b.errors[|a.errors|..]
    ensures e in c.errors[|a.errors|..]
  {
    if e in c.errors[|b.errors|..] {
      var j :| |b.errors| <= j < |c.errors| && c.errors[j] == e;
      assert c.errors[|a.errors|..][j - |a.errors|] == e;
    } else {
      var j :| |a.errors| <= j < |b.errors| && b.errors[j] == e;
      assert c.errors[|a.errors|..][j - |a.errors|] == e;
    }
  }

  /** The checks of a call inside an expression: an unbound callee is a
      ReferenceError and a non-function a TypeError, each followed by
      "wrong number of arguments", and then the call has no type; a
      function callee gives the call its return type, with "wrong number of
      arguments" first when the counts differ. The node is written back
      with that type and one analysed argument per argument. */
  lemma CallChecks(st: AState, c: Call, r: Res<TypedExp>)
    requires Good(st) && r == CallR(st, c) && r.Ok?
    ensures Lookup(st, c.name).Some?
    ensures var b := Lookup(st, c.name).value;
      b.Unbound? ==> (r.value.dtype.None? &&
        st.errors + [Error(ReferenceError, "undefined function", c.name), Error(TypeError, "wrong number of arguments", c.name)] <= r.st.errors)
    ensures var b := Lookup(st, c.name).value;
      b.Bound? && !b.dtype.Complex? ==> (r.value.dtype.None? &&
        st.errors + [Error(TypeError, "not a function", c.name), Error(TypeError, "wrong number of arguments", c.name)] <= r.st.errors)
    ensures var b := Lookup(st, c.name).value;
      b.Bound? && b.dtype.Complex? ==> (r.value.dtype == b.dtype.fn.returnType &&
        (|c.args| != |b.dtype.fn.params| ==> st.errors + [Error(TypeError, "wrong number of arguments", c.name)] <= r.st.errors))
    ensures r.value.exp.FnCallExp? && r.value.exp.call.dtype == r.value.dtype && r.value.exp.call.name == c.name
    ensures |r.value.exp.call.args| == |c.args|
  {
    var b := Lookup(st, c.name);
    var isFn := b.value.Bound? && b.value.dtype.Complex?;
    var st1 :=
      if b.value.Unbound? then WithError(st, ReferenceError, "undefined function", c.name)
      else if !isFn then WithError(st, TypeError, "not a function", c.name)
      else st;
    var params := if isFn then b.value.dtype.fn.params else [];
    var check := isFn && |c.args| == |params|;
    var st2 := if !check then WithError(st1, TypeError, "wrong number of arguments", c.name) else st1;
    var args := ArgsR(st2, c, check, params, "argument has wrong type", 0, []);
    assert st2.errors <= args.st.errors;
  }

  /** Argument types are compared only when `check` holds: without it the
      parameter list and the message make no difference. */
  lemma {:induction false} ArgsUnchecked(st: AState, c: Call, p1: seq<FnParam>, p2: seq<FnParam>, m1: string, m2: string,
                                          i: nat, acc: seq<Expression>)
    requires Good(st) && i <= |c.args|
    ensures ArgsR(st, c, false, p1, m1, i, acc) == ArgsR(st, c, false, p2, m2, i, acc)
    decreases |c.args| - i
  {
    if i < |c.args| {
      var a := ExpR(st, c.args[i]);
      if a.Ok? {
        ArgsUnchecked(a.st, c, p1, p2, m1, m2, i + 1, acc + [a.value.exp]);
      }
    }
  }

  // ---------------------------------------------------------------------
  // The analysis cache

  /** `AnalysisCache`: the scope tables, the errors, the current function
      and the loop depth, updated in place by the walk. Each method that
      walks the tree takes the outcome its spec function gives as a ghost
      argument, requires it to be defined, and ends in that state with that
      value. */
  class AnalysisCache {
    const source: string
    var defs: seq<Rows>
    var errors: seq<Error>
    var currentFunction: Option<FunctionType>
    var currentScope: int
    var inLoop: int

    /** The fields the walk reads and writes, as one value. */
    ghost function State(): AState
      reads this
    {
      AState(source, defs, errors, currentFunction, inLoop)
    }

    /** `analysis_cache_create`. */
    constructor (source: string)
      ensures State() == FreshState(source) && currentScope == 0
    {
      this.source := source;
      defs := [];
      errors := [];
      currentFunction := None;
      currentScope := 0;
      inLoop := 0;
      new;
      Extend();
    }

    /** The name `tok` spells, as `substring` copies it. */
    method Key(tok: Token) returns (key: string)
      requires KeyOf(State(), tok).Some?
      ensures Some(key) == KeyOf(State(), tok)
    {
      var raw := Substring(source, tok.start, tok.end);
      key := raw.value[..tok.end - tok.start];
    }

    /** `analysis_cache_get`: the type and the depth of the innermost
      binding; on a miss no type, and `scope` keeps the value it came in
      with. */
    method Get(tok: Token, scopeIn: int) returns (dtype: Option<GenericType>, scope: int)
      requires Good(State()) && Lookup(State(), tok).Some?
      ensures Lookup(State(), tok).value.Bound? ==>
                dtype == Some(Lookup(State(), tok).value.dtype) && scope == Lookup(State(), tok).value.scope
      ensures Lookup(State(), tok).value.Unbound? ==> dtype.None? && scope == scopeIn
    {
      dtype, scope := None, scopeIn;
      if |defs| == 0 {
        return;
      }
      var key := Key(tok);
      ghost var b := LookupFrom(defs, key, |defs| - 1);
      assert Lookup(State(), tok) == Some(b);
      var i := |defs| - 1;
      while i >= 0
        invariant -1 <= i < |defs|
        invariant LookupFrom(defs, key, i) == b
      {
        var t := RowsGet(defs[i], key);
        if t.Some? {
          dtype, scope := t, i;
          return;
        }
        i := i - 1;
      }
    }

    /** `analysis_cache_set`. */
    method Set(tok: Token, v: Option<GenericType>, scope: int)
      requires Good(State()) && SetName(State(), tok, v, scope).Some?
      modifies this
      ensures State() == SetName(old(State()), tok, v, scope).value
      ensures currentScope == old(currentScope)
    {
      var s := if scope == -1 then |defs| - 1 else scope;
      var key := Key(tok);
      var rows := RowsSet(defs[s], key, v);
      defs := defs[s := rows];
    }

    /** `analysis_cache_extend`. */
    method Extend()
      modifies this
      ensures State() == Extended(old(State()))
      ensures currentScope == old(currentScope)
    {
      defs := defs + [[]];
    }

    /** `analysis_cache_shrink`. */
    method Shrink()
      requires |defs| > 0
      modifies this
      ensures State() == Shrunk(old(State())).value
      ensures currentScope == old(currentScope)
    {
      defs := defs[..|defs| - 1];
    }

    /** `analysis_cache_defined`: some scope binds the name to a type. */
    method Defined(tok: Token) returns (b: bool)
      requires Good(State()) && DefinedAnywhere(State(), tok).Some?
      ensures Some(b) == DefinedAnywhere(State(), tok)
    {
      if |defs| == 0 {
        return false;
      }
      var key := Key(tok);
      ghost var found := LookupFrom(defs, key, |defs| - 1);
      assert DefinedAnywhere(State(), tok) == Some(found.Bound?);
      var i := |defs| - 1;
      while i >= 0
        invariant -1 <= i < |defs|
        invariant LookupFrom(defs, key, i) == found
      {
        var t := RowsGet(defs[i], key);
        if t.Some? {
          return true;
        }
        i := i - 1;
      }
      return false;
    }

    /** `analysis_cache_defined_in_current_scope`. */
    method DefinedInCurrentScope(tok: Token) returns (b: bool)
      requires Good(State()) && DefinedHere(State(), tok).Some?
      ensures Some(b) == DefinedHere(State(), tok)
    {
      var key := Key(tok);
      var t := RowsGet(defs[|defs| - 1], key);
      b := t.Some?;
    }

    /** `analysis_cache_add_error`. */
    method AddError(kind: ErrorKind, message: string, tok: Token)
      modifies this
      ensures State() == WithError(old(State()), kind, message, tok)
      ensures currentScope == old(currentScope)
    {
      errors := errors + [Error(kind, message, tok)];
    }

    /** `analysis_cache_process_expression`. */
    method ProcessExpression(e: Expression, ghost spec: Res<TypedExp>) returns (t: TypedExp)
      requires Good(State()) && spec == ExpR(State(), e) && spec.Ok?
      modifies this
      ensures State() == spec.st && t == spec.value
      decreases e, 0, 0
    {
      match e
      case ExpExp(op) =>
        var tt := op.token.ttype;
        if tt.Lt? || tt.Gt? || tt.GtE? || tt.LtE? || tt.Plus? || tt.Minus? || tt.Star? || tt.Slash? || tt.Mod? {
          ghost var s := OperandsR(State(), op, Int, "expected int");
          t := Operands(op, Int, "expected int", s);
        } else if tt.Not? {
          ghost var s := NotR(State(), op);
          t := ProcessNot(op, s);
        } else if tt.Or? || tt.And? {
          ghost var s := OperandsR(State(), op, Bool, "expected bool");
          t := Operands(op, Bool, "expected bool", s);
        } else if tt.NotEq? || tt.EqEq? {
          ghost var s := CompareR(State(), op);
          t := ProcessCompare(op, s);
        } else if tt.True? || tt.False? || tt.Number? {
          t := TypedExp(op.dtype, e);
        } else {
          var dtype, _ := Get(op.token, 0);
          if dtype.None? {
            AddError(ReferenceError, "undefined variable", op.token);
          }
          t := TypedExp(dtype, e);
        }
      case FnCallExp(c) =>
        ghost var s := CallR(State(), c);
        t := ProcessCall(c, s);
    }

    /** An arithmetic, ordering or logical operator. */
    method Operands(op: OpExpression, want: DataType, rightMessage: string, ghost spec: Res<TypedExp>) returns (t: TypedExp)
      requires Good(State()) && spec == OperandsR(State(), op, want, rightMessage) && spec.Ok?
      modifies this
      ensures State() == spec.st && t == spec.value
      decreases op, 0, 0
    {
      ghost var ls := ExpR(State(), op.left.value);
      var l := ProcessExpression(op.left.value, ls);
      if l.dtype != Some(Simple(want)) {
        AddError(TypeError, "invalid operation for given type", op.token);
      }
      ghost var rs := ExpR(State(), op.right.value);
      var r := ProcessExpression(op.right.value, rs);
      if r.dtype != Some(Simple(want)) {
        AddError(TypeError, rightMessage, op.token);
      }
      t := TypedExp(op.dtype, ExpExp(op.(left := Some(l.exp), right := Some(r.exp))));
    }

    /** `!`. */
    method ProcessNot(op: OpExpression, ghost spec: Res<TypedExp>) returns (t: TypedExp)
      requires Good(State()) && spec == NotR(State(), op) && spec.Ok?
      modifies this
      ensures State() == spec.st && t == spec.value
      decreases op, 0, 0
    {
      ghost var ss := ExpR(State(), op.left.value);
      var sub := ProcessExpression(op.left.value, ss);
      if sub.dtype != Some(Simple(Bool)) {
        AddError(TypeError, "expected bool", op.token);
      }
      t := TypedExp(op.dtype, ExpExp(op.(left := Some(sub.exp))));
    }

    /** `==` and `!=`. */
    method ProcessCompare(op: OpExpression, ghost spec: Res<TypedExp>) returns (t: TypedExp)
      requires Good(State()) && spec == CompareR(State(), op) && spec.Ok?
      modifies this
      ensures State() == spec.st && t == spec.value
      decreases op, 0, 0
    {
      ghost var ls := ExpR(State(), op.left.value);
      var l := ProcessExpression(op.left.value, ls);
      ghost var rs := ExpR(State(), op.right.value);
      var r := ProcessExpression(op.right.value, rs);
      if !TypeCompare(l.dtype, r.dtype) {
        AddError(TypeError, "cannot compare different types", op.token);
      }
      t := TypedExp(op.dtype, ExpExp(op.(left := Some(l.exp), right := Some(r.exp))));
    }

    /** A call inside an expression. */
    method ProcessCall(c: Call, ghost spec: Res<TypedExp>) returns (t: TypedExp)
      requires Good(State()) && spec == CallR(State(), c) && spec.Ok?
      modifies this
      ensures State() == spec.st && t == spec.value
      decreases c, 1, 0
    {
      var fnType, _ := Get(c.name, 0);
      var isFn := fnType.Some? && fnType.value.Complex?;
      if fnType.None? {
        AddError(ReferenceError, "undefined function", c.name);
      } else if !isFn {
        AddError(TypeError, "not a function", c.name);
      }
      var dtype := if isFn then fnType.value.fn.returnType else None;
      var params := if isFn then fnType.value.fn.params else [];
      var check := isFn && |c.args| == |params|;
      if !check {
        AddError(TypeError, "wrong number of arguments", c.name);
      }
      ghost var s := ArgsR(State(), c, check, params, "argument has wrong type", 0, []);
      var args := ProcessArgs(c, check, params, "argument has wrong type", s);
      t := TypedExp(dtype, FnCallExp(c.(dtype := dtype, args := args)));
    }

    /** The argument loop of a call. */
    method ProcessArgs(c: Call, check: bool, params: seq<FnParam>, message: string, ghost spec: Res<seq<Expression>>)
      returns (args: seq<Expression>)
      requires Good(State()) && (check ==> |params| == |c.args|)
      requires spec == ArgsR(State(), c, check, params, message, 0, []) && spec.Ok?
      modifies this
      ensures State() == spec.st && args == spec.value
      decreases c, 0, |c.args|
    {
      args := [];
      var i := 0;
      while i < |c.args|
        invariant 0 <= i <= |c.args| && Good(State())
        invariant ArgsR(State(), c, check, params, message, i, args) == spec
      {
        ghost var s := ExpR(State(), c.args[i]);
        var a := ProcessExpression(c.args[i], s);
        if check && !TypeCompare(a.dtype, params[i].dtype) {
          AddError(TypeError, message, c.name);
        }
        args := args + [a.exp];
        i := i + 1;
      }
    }

    /** `analysis_cache_process_oneliner`. */
    method ProcessOneliner(ol: Oneliner, ghost spec: Res<Oneliner>) returns (o: Oneliner)
      requires Good(State()) && spec == OnelinerR(State(), ol) && spec.Ok?
      modifies this
      ensures State() == spec.st && o == spec.value
    {
      match ol
      case AssignmentOL(ass) =>
        ghost var s := AssignR(State(), ass);
        o := ProcessAssignment(ass, s);
      case CallOL(c) =>
        ghost var s := CallStmtR(State(), c);
        o := ProcessCallStmt(c, s);
    }

    /** An assignment. */
    method ProcessAssignment(ass: Assignment, ghost spec: Res<Oneliner>) returns (o: Oneliner)
      requires Good(State()) && spec == AssignR(State(), ass) && spec.Ok?
      modifies this
      ensures State() == spec.st && o == spec.value
    {
      var here := DefinedInCurrentScope(ass.variable);
      if ass.newVar && here {
        AddError(ReferenceError, "variable redefinition is not allowed", ass.variable);
      }
      var t := ass.op.ttype;
      if t.Inc? || t.Dec? {
        ghost var s := StepR(State(), ass);
        o := ProcessStep(ass, s);
      } else {
        ghost var es := ExpR(State(), ass.exp.value);
        var e := ProcessExpression(ass.exp.value, es);
        var ass1 := ass.(exp := Some(e.exp));
        if t.PlusEq? || t.MinusEq? || t.StarEq? || t.SlashEq? || t.ModEq? {
          ghost var s := CompoundR(State(), ass1, e.dtype);
          o := ProcessCompound(ass1, e.dtype, s);
        } else if t.ColEq? {
          ghost var s := DeclareR(State(), ass1, e.dtype, here);
          o := ProcessDeclare(ass1, e.dtype, here, s);
        } else {
          ghost var s := PlainR(State(), ass1, e.dtype, here);
          o := ProcessPlain(ass1, e.dtype, here, s);
        }
      }
    }

    /** `++` and `--`. */
    method ProcessStep(ass: Assignment, ghost spec: Res<Oneliner>) returns (o: Oneliner)
      requires Good(State()) && spec == StepR(State(), ass) && spec.Ok?
      modifies this
      ensures State() == spec.st && o == spec.value
    {
      var dtype, scope := Get(ass.variable, 0);
      if dtype.None? {
        AddError(ReferenceError, "undefined variable", ass.variable);
        o := AssignmentOL(ass);
      } else if dtype.value != Simple(Int) {
        AddError(TypeError, "invalid operation for given type", ass.variable);
        o := AssignmentOL(ass);
      } else {
        var sc := if currentFunction.None? then scope else -1;
        o := AssignmentOL(ass.(dtype := dtype, scope := sc));
      }
    }

    /** `+=`, `-=`, `*=`, `/=` and `%=`. */
    method ProcessCompound(ass: Assignment, et: Option<GenericType>, ghost spec: Res<Oneliner>) returns (o: Oneliner)
      requires Good(State()) && spec == CompoundR(State(), ass, et) && spec.Ok?
      modifies this
      ensures State() == spec.st && o == spec.value
    {
      var vt, scope := Get(ass.variable, 0);
      var ass1 := ass.(dtype := vt);
      if vt.None? {
        AddError(ReferenceError, "undefined variable", ass.variable);
      } else if vt.value != Simple(Int) {
        AddError(TypeError, "invalid operation for given type", ass.variable);
      } else {
        ass1 := ass1.(scope := if currentFunction.None? then scope else -1);
      }
      if et.value != Simple(Int) {
        AddError(TypeError, "expected a number", ass.variable);
      }
      o := AssignmentOL(ass1);
    }

    /** `:=`. */
    method ProcessDeclare(ass: Assignment, et: Option<GenericType>, here: bool, ghost spec: Res<Oneliner>) returns (o: Oneliner)
      requires Good(State()) && spec == DeclareR(State(), ass, et, here) && spec.Ok?
      modifies this
      ensures State() == spec.st && o == spec.value
    {
      if here {
        return AssignmentOL(ass);
      }
      var sc := if currentFunction.None? then |defs| - 1 else -1;
      o := AssignmentOL(ass.(scope := sc, dtype := et));
      Set(ass.variable, et, -1);
    }

    /** `=`. */
    method ProcessPlain(ass: Assignment, et: Option<GenericType>, here: bool, ghost spec: Res<Oneliner>) returns (o: Oneliner)
      requires Good(State()) && spec == PlainR(State(), ass, et, here) && spec.Ok?
      modifies this
      ensures State() == spec.st && o == spec.value
    {
      if ass.newVar && here {
        return AssignmentOL(ass);
      }
      if ass.newVar {
        var sc := if currentFunction.None? then |defs| - 1 else -1;
        Set(ass.variable, ass.dtype, -1);
        if !TypeCompare(ass.dtype, et) {
          AddError(TypeError, "invalid type", ass.variable);
        }
        return AssignmentOL(ass.(scope := sc));
      }
      var vt, scope := Get(ass.variable, ass.scope);
      if vt.None? {
        AddError(ReferenceError, "undefined variable", ass.variable);
      } else if !TypeCompare(et, vt) {
        AddError(TypeError, "invalid type", ass.variable);
      }
      var sc := if currentFunction.None? then scope else -1;
      o := AssignmentOL(ass.(dtype := vt, scope := sc));
    }

    /** A call statement. */
    method ProcessCallStmt(c: Call, ghost spec: Res<Oneliner>) returns (o: Oneliner)
      requires Good(State()) && spec == CallStmtR(State(), c) && spec.Ok?
      modifies this
      ensures State() == spec.st && o == spec.value
    {
      var dt, _ := Get(c.name, 0);
      var isFn := dt.Some? && dt.value.Complex?;
      var returnsVoid := isFn && dt.value.fn.returnType == Some(Simple(Void));
      var scope := c.scope;
      if dt.None? {
        AddError(ReferenceError, "undefined function", c.name);
      } else if !isFn {
        AddError(TypeError, "is not a function", c.name);
      } else if !returnsVoid {
        AddError(TypeError, "void call returns a value", c.name);
      } else {
        scope := if currentFunction.None? then |defs| - 1 else -1;
      }
      var params := if isFn then dt.value.fn.params else [];
      var check := isFn && |c.args| == |params|;
      ghost var s := ArgsR(State(), c, check, params, "wrong parameter type for the function", 0, []);
      var args := ProcessArgs(c, check, params, "wrong parameter type for the function", s);
      o := CallOL(c.(dtype := dt, scope := scope, args := args));
    }

    /** `validate`: the statement loop. */
    method Validate(stmts: seq<Stmt>, ghost spec: Res<seq<Stmt>>) returns (out: seq<Stmt>)
      requires Good(State()) && spec == BlockR(State(), stmts, 0, []) && spec.Ok?
      modifies this
      ensures State() == spec.st && out == spec.value
      decreases stmts, 0
    {
      out := [];
      var i := 0;
      while i < |stmts|
        invariant 0 <= i <= |stmts| && Good(State())
        invariant BlockR(State(), stmts, i, out) == spec
      {
        ghost var s := StmtR(State(), stmts[i]);
        var x := ValidateStmt(stmts[i], s);
        out := out + [x];
        i := i + 1;
      }
    }

    /** One statement of `validate`. */
    method ValidateStmt(stmt: Stmt, ghost spec: Res<Stmt>) returns (out: Stmt)
      requires Good(State()) && spec == StmtR(State(), stmt) && spec.Ok?
      modifies this
      ensures State() == spec.st && out == spec.value
      decreases stmt, 0
    {
      out := stmt;
      match stmt
      case OpenScopeStmt(_) =>
        Extend();
      case CloseScopeStmt(_) =>
        Shrink();
      case BreakStmt(tok) =>
        if inLoop == 0 {
          AddError(SyntaxError, "break statement outside of a loop", tok);
        }
      case ContinueStmt(tok) =>
        if inLoop == 0 {
          AddError(SyntaxError, "continue statement outside of a loop", tok);
        }
      case ReturnStmt(tok, e) =>
        if currentFunction.None? {
          AddError(SyntaxError, "return statement outside of a function body", tok);
        } else if e.Some? {
          ghost var s := ExpR(State(), e.value);
          var x := ProcessExpression(e.value, s);
          if !TypeCompare(currentFunction.value.returnType, x.dtype) {
            AddError(TypeError, "returning wrong type", tok);
          }
          out := ReturnStmt(tok, Some(x.exp));
        }
      case OnelinerStmt(ol) =>
        ghost var s := OnelinerR(State(), ol);
        var o := ProcessOneliner(ol, s);
        out := OnelinerStmt(o);
      case ConditionalStmt(c) =>
        ghost var s := CondR(State(), c);
        out := ValidateConditional(c, s);
      case ForStmt(f) =>
        ghost var s := ForR(State(), f);
        out := ValidateFor(f, s);
      case FnStmt(f) =>
        ghost var s := FnR(State(), f);
        out := ValidateFn(f, s);
    }

    /** A condition of an `if` or a `for`. */
    method ProcessCondition(e: Expression, tok: Token, ghost spec: Res<TypedExp>) returns (t: TypedExp)
      requires Good(State()) && spec == ConditionR(State(), e, tok) && spec.Ok?
      modifies this
      ensures State() == spec.st && t == spec.value
    {
      ghost var s := ExpR(State(), e);
      t := ProcessExpression(e, s);
      if t.dtype != Some(Simple(Bool)) {
        AddError(TypeError, "condition must be a boolean expression", tok);
      }
    }

    /** A branch of an `if`. */
    method ValidateScoped(block: seq<Stmt>, ghost spec: Res<seq<Stmt>>) returns (out: seq<Stmt>)
      requires Good(State()) && spec == ScopedR(State(), block) && spec.Ok?
      modifies this
      ensures State() == spec.st && out == spec.value
      decreases block, 1
    {
      out := block;
      if |block| > 0 {
        Extend();
        ghost var s := BlockR(State(), block, 0, []);
        out := Validate(block, s);
        Shrink();
      }
    }

    /** `if`. */
    method ValidateConditional(c: Conditional, ghost spec: Res<Stmt>) returns (out: Stmt)
      requires Good(State()) && spec == CondR(State(), c) && spec.Ok?
      modifies this
      ensures State() == spec.st && out == spec.value
      decreases c
    {
      ghost var cs := ConditionR(State(), c.condition, c.token);
      var x := ProcessCondition(c.condition, c.token, cs);
      ghost var ts := ScopedR(State(), c.thenBlock);
      var th := ValidateScoped(c.thenBlock, ts);
      ghost var es := ScopedR(State(), c.elseBlock);
      var el := ValidateScoped(c.elseBlock, es);
      out := ConditionalStmt(c.(condition := x.exp, thenBlock := th, elseBlock := el));
    }

    /** `for`. */
    method ValidateFor(f: ForLoop, ghost spec: Res<Stmt>) returns (out: Stmt)
      requires Good(State()) && spec == ForR(State(), f) && spec.Ok?
      modifies this
      ensures State() == spec.st && out == spec.value
      decreases f, 1
    {
      Extend();
      ghost var ins := OnelinerR(State(), f.init);
      var init := ProcessOneliner(f.init, ins);
      ghost var cs := ConditionR(State(), f.condition, f.token);
      var x := ProcessCondition(f.condition, f.token, cs);
      ghost var afs := OnelinerR(State(), f.after);
      var after := ProcessOneliner(f.after, afs);
      ghost var bs := LoopBodyR(State(), f);
      var body := ValidateLoopBody(f, bs);
      Shrink();
      out := ForStmt(f.(init := init, condition := x.exp, after := after, body := body));
    }

    /** The body of a `for`. */
    method ValidateLoopBody(f: ForLoop, ghost spec: Res<seq<Stmt>>) returns (out: seq<Stmt>)
      requires Good(State()) && spec == LoopBodyR(State(), f) && spec.Ok?
      modifies this
      ensures State() == spec.st && out == spec.value
      decreases f, 0
    {
      out := f.body;
      if |f.body| > 0 {
        ghost var inner := Extended(State()).(inLoop := inLoop + 1);
        Extend();
        inLoop := inLoop + 1;
        assert State() == inner;
        ghost var s := BlockR(State(), f.body, 0, []);
        out := Validate(f.body, s);
        Shrink();
        inLoop := inLoop - 1;
      }
    }

    /** A function definition. */
    method ValidateFn(f: FnDefinition, ghost spec: Res<Stmt>) returns (out: Stmt)
      requires Good(State()) && spec == FnR(State(), f) && spec.Ok?
      modifies this
      ensures State() == spec.st && out == spec.value
      decreases f, 1
    {
      ghost var hs := FnHeadR(State(), f);
      DeclareFn(f, hs);
      currentFunction := Some(f.dtype);
      ghost var bs := FnBodyR(State(), f);
      out := ValidateFnBody(f, bs);
    }

    /** The head of a function definition. */
    method DeclareFn(f: FnDefinition, ghost spec: Option<AState>)
      requires Good(State()) && spec == FnHeadR(State(), f) && spec.Some?
      modifies this
      ensures State() == spec.value
    {
      var found, _ := Get(f.name, 0);
      var redefined := found.Some?;
      if redefined {
        AddError(ReferenceError, "variable redefinition is not allowed", f.name);
      }
      Extend();
      ghost var ps := ParamsR(State(), f.dtype.params, 0);
      BindParams(f.dtype.params, ps);
      if !redefined {
        Set(f.name, Some(Complex(f.dtype)), |defs| - 2);
      }
    }

    /** The parameter loop of a function definition. */
    method BindParams(params: seq<FnParam>, ghost spec: Option<AState>)
      requires Good(State()) && spec == ParamsR(State(), params, 0) && spec.Some?
      modifies this
      ensures State() == spec.value
    {
      var i := 0;
      while i < |params|
        invariant 0 <= i <= |params| && Good(State())
        invariant ParamsR(State(), params, i) == spec
      {
        ghost var s := ParamR(State(), params[i]);
        BindParam(params[i], s);
        i := i + 1;
      }
    }

    /** One parameter of a function definition. */
    method BindParam(p: FnParam, ghost spec: Option<AState>)
      requires Good(State()) && spec == ParamR(State(), p) && spec.Some?
      modifies this
      ensures State() == spec.value
    {
      var name := p.name.value;
      var here := DefinedInCurrentScope(name);
      if here {
        AddError(ReferenceError, "parameter with the same name already exists for given function", name);
      } else {
        Set(name, p.dtype, -1);
      }
    }

    /** The body of a function definition and the end of its scope. */
    method ValidateFnBody(f: FnDefinition, ghost spec: Res<Stmt>) returns (out: Stmt)
      requires Good(State()) && spec == FnBodyR(State(), f) && spec.Ok?
      modifies this
      ensures State() == spec.st && out == spec.value
      decreases f, 0
    {
      var body := f.body;
      if |f.body| > 0 {
        ghost var s := BlockR(State(), f.body, 0, []);
        body := Validate(f.body, s);
      }
      Shrink();
      currentFunction := None;
      out := FnStmt(f.(body := body));
    }
  }
}
