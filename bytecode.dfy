/** The instruction set shared by the bytecode compiler and the virtual
    machine: opcodes, 32-bit integers and the constants of the argument
    stream. */
module Bytecode {
  import opened Utils

  /** `OpCode`. The jump and print opcodes are the ones the virtual machine
      dispatches on; the compiler never emits them. */
  datatype OpCode =
    | CreateScopeCode | DestroyScopeCode | PushCode | LoadCode | ReturnCode
    | StoreCode
    | IntAddCode | IntSubtractCode | IntMultiplyCode | IntDivideCode | IntModCode
    | IntEqCode | IntNotEqCode | IntGtCode | IntLtCode | IntGtECode | IntLtECode
    | BoolNotCode | BoolAndCode | BoolOrCode
    | GotoCode | GotoIfCode | PrintlnIntCode | PrintlnBoolCode | PrintlnStrCode

  /** The opcodes that pop two operands and push one result. */
  predicate BinaryOpcodeOf(op: OpCode)
  {
    op.IntAddCode? || op.IntSubtractCode? || op.IntMultiplyCode? || op.IntDivideCode? || op.IntModCode? ||
    op.IntEqCode? || op.IntNotEqCode? || op.IntGtCode? || op.IntLtCode? || op.IntGtECode? || op.IntLtECode? ||
    op.BoolAndCode? || op.BoolOrCode?
  }

  const IntMin: int := -0x8000_0000
  const IntMax: int := 0x7FFF_FFFF

  /** A value of the platform's 32-bit `int`. */
  predicate IsInt32(x: int)
  {
    IntMin <= x <= IntMax
  }

  type Int32 = x: int | IsInt32(x)

  /** A `Constant` as the compiler writes it: the member of the union that
      it sets. A variable name is NULL for an empty lexeme. */
  datatype Constant = IntC(i: Int32) | BoolC(b: bool) | NameC(name: Option<string>)

  /** The value of a decimal digit character. */
  function DigitValue(c: char): nat
    requires '0' <= c <= '9'
  {
    c as int - '0' as int
  }

  /** The value of a string of decimal digits. */
  function DecimalValue(d: string): nat
    requires forall k :: 0 <= k < |d| ==> '0' <= d[k] <= '9'
  {
    if d == [] then 0 else 10 * DecimalValue(d[..|d| - 1]) + DigitValue(d[|d| - 1])
  }

  /** White space as C's `isspace` sees it. */
  predicate IsSpace(c: char)
  {
    c == ' ' || c == '\t' || c == '\n' || c == '\U{B}' || c == '\U{C}' || c == '\r'
  }

  /** The end of the run of characters starting at `i` that satisfy `p`. */
  function RunEnd(s: string, i: nat, p: char -> bool): (j: nat)
    requires i <= |s|
    ensures i <= j <= |s|
    ensures forall k :: i <= k < j ==> p(s[k])
    ensures j < |s| ==> !p(s[j])
    decreases |s| - i
  {
    if i < |s| && p(s[i]) then RunEnd(s, i + 1, p) else i
  }

  /** A decimal digit, as C's `isdigit` sees it. */
  predicate IsDecimal(c: char) { '0' <= c <= '9' }

  /** The digit run found by `RunEnd` is a string of decimal digits. */
  lemma DigitRun(s: string, d: nat)
    requires d <= |s|
    ensures var e := RunEnd(s, d, IsDecimal); forall k :: 0 <= k < |s[d..e]| ==> '0' <= s[d..e][k] <= '9'
  {
    var e := RunEnd(s, d, IsDecimal);
    forall k | 0 <= k < |s[d..e]| ensures '0' <= s[d..e][k] <= '9' {
      assert s[d..e][k] == s[d + k] && IsDecimal(s[d + k]);
    }
  }

  /** `atoi`: leading white space, an optional sign and the longest run of
      digits; None when the value does not fit an `int` (undefined in C). */
  function Atoi(s: string): (r: Option<Int32>)
  {
    var i := RunEnd(s, 0, IsSpace);
    var negative := i < |s| && s[i] == '-';
    var d := if i < |s| && (s[i] == '-' || s[i] == '+') then i + 1 else i;
    var e := RunEnd(s, d, IsDecimal);
    DigitRun(s, d);
    var v: int := DecimalValue(s[d..e]);
    var value: int := if negative then 0 - v else v;
    if IsInt32(value) then Some(value) else None
  }

  /** A plain digit string reads as its decimal value. */
  lemma {:induction false} AtoiDigits(s: string)
    requires |s| > 0 && forall k :: 0 <= k < |s| ==> '0' <= s[k] <= '9'
    requires DecimalValue(s) <= IntMax
    ensures Atoi(s) == Some(DecimalValue(s))
  {
    assert RunEnd(s, 0, IsSpace) == 0;
    assert RunEnd(s, 0, IsDecimal) == |s|;
    assert s[0..|s|] == s;
  }
}
