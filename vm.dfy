/** The stack machine of include/vm.c. `Step` and `Exec` say what one
    command and a bounded run do to the machine state; the `Machine` class
    is the imperative code (growable arrays for the operand stack and the
    scope starts, a dispatch loop over the command counter), proved to do
    exactly that. A stack slot that was never written holds `None`; reading
    it, and every other C undefined behaviour, makes the outcome `None`. */
module Vm {
  import opened Utils
  import opened Bytecode

  // ---------------------------------------------------------------------
  // Buffers

  /** `realloc` of a buffer to `n` elements: the common prefix is kept and
      new elements are `fill`. */
  function Resized<T>(s: seq<T>, n: nat, fill: T): (r: seq<T>)
    ensures |r| == n
    ensures forall k :: 0 <= k < n && k < |s| ==> r[k] == s[k]
    ensures forall k :: |s| <= k < n ==> r[k] == fill
  {
    seq(n, k requires 0 <= k < n => if k < |s| then s[k] else fill)
  }

  /** The operand stack: the allocated slots (their number is the
      capacity) and `stack_size`. */
  datatype Stack = Stack(slots: seq<Option<Int32>>, size: nat)

  /** The stack after a pop and the value popped. */
  datatype Popped = Popped(stack: Stack, value: Int32)

  /** `stack_push`: double the capacity when full, then write the new top. */
  function StackPush(st: Stack, v: Int32): Option<Stack>
  {
    var cap := |st.slots|;
    var slots := if cap <= st.size then Resized(st.slots, 2 * cap, None) else st.slots;
    if st.size < |slots| then Some(Stack(slots[st.size := Some(v)], st.size + 1)) else None
  }

  /** `stack_pop`: halve the capacity when it exceeds 1024 and at most a
      third is in use, then decrement the size and read the slot there. */
  function StackPop(st: Stack): Option<Popped>
  {
    var cap := |st.slots|;
    var slots := if cap > 1024 && st.size <= cap / 3 then Resized(st.slots, cap / 2, None) else st.slots;
    if st.size == 0 || |slots| < st.size || slots[st.size - 1].None? then None
    else Some(Popped(Stack(slots, st.size - 1), slots[st.size - 1].value))
  }

  /** The scope starts: the allocated cells, `scope_starts_capacity` and
      `scope_starts_size`. The capacity counts `int`s, but the buffer is
      reallocated to that many bytes, so the two can differ. */
  datatype ScopeStack = ScopeStack(cells: seq<nat>, capacity: nat, size: nat)

  /** The width of a C `int` in bytes. */
  const IntBytes: nat := 4

  /** `vm_set_scope_start`: when full, double the capacity and reallocate
      the buffer to that many bytes (room for a quarter as many `int`s),
      then write the new record, undefined when it lies past the buffer. */
  function ScopePush(sc: ScopeStack, start: nat): Option<ScopeStack>
  {
    var cap := if sc.capacity <= sc.size then 2 * sc.capacity else sc.capacity;
    var cells := if sc.capacity <= sc.size then Resized(sc.cells, cap / IntBytes, 0) else sc.cells;
    if sc.size < |cells| then Some(ScopeStack(cells[sc.size := start], cap, sc.size + 1)) else None
  }

  /** `vm_clear_last_scope`'s read: drop the latest record and return it. */
  function ScopePop(sc: ScopeStack): Option<(ScopeStack, nat)>
  {
    if sc.size == 0 || |sc.cells| < sc.size then None
    else Some((sc.(size := sc.size - 1), sc.cells[sc.size - 1]))
  }

  // ---------------------------------------------------------------------
  // The push and pop contracts

  /** A push keeps the slots below, writes the new top, grows the size by
      one and doubles the capacity exactly when the stack was full. */
  lemma PushEffect(st: Stack, v: Int32)
    requires StackPush(st, v).Some?
    ensures var st1 := StackPush(st, v).value;
      st1.size == st.size + 1 && st1.size <= |st1.slots| &&
      st1.slots[st.size] == Some(v) &&
      (forall k :: 0 <= k < st.size && k < |st.slots| ==> st1.slots[k] == st.slots[k]) &&
      |st1.slots| == (if |st.slots| <= st.size then 2 * |st.slots| else |st.slots|)
  {
  }

  /** A push is undefined exactly when even the doubled buffer has no slot
      at the current size (a zero capacity, or a size restored past it). */
  lemma PushDefined(st: Stack, v: Int32)
    ensures StackPush(st, v).Some? <==>
      (if |st.slots| <= st.size then st.size < 2 * |st.slots| else true)
  {
  }

  /** A pop returns the old top, shrinks the size by one, keeps the slots
      below, and halves the capacity only when it exceeded 1024 with at
      most a third in use; the capacity still exceeds the new size. */
  lemma PopEffect(st: Stack)
    requires StackPop(st).Some?
    ensures var p := StackPop(st).value;
      st.size > 0 && p.stack.size == st.size - 1 && p.stack.size < |p.stack.slots| &&
      st.size - 1 < |st.slots| && st.slots[st.size - 1] == Some(p.value) &&
      (forall k :: 0 <= k < p.stack.size ==> p.stack.slots[k] == st.slots[k]) &&
      |p.stack.slots| == (if |st.slots| > 1024 && st.size <= |st.slots| / 3 then |st.slots| / 2 else |st.slots|)
  {
  }

  /** Popping right after a push gives the pushed value back and the old
      size and live slots. */
  lemma PopAfterPush(st: Stack, v: Int32)
    requires StackPush(st, v).Some? && st.size <= |st.slots|
    ensures StackPop(StackPush(st, v).value).Some?
    ensures var p := StackPop(StackPush(st, v).value).value;
      p.value == v && p.stack.size == st.size && p.stack.slots[..st.size] == st.slots[..st.size]
  {
    var st1 := StackPush(st, v).value;
    PushEffect(st, v);
    var cap := |st1.slots|;
    if cap > 1024 && st1.size <= cap / 3 {
      assert st.size < cap / 2;
    }
    var p := StackPop(st1).value;
    PopEffect(st1);
    assert p.stack.slots[..st.size] == st.slots[..st.size];
  }

  /** Recording a scope start and clearing it again restores the records. */
  lemma ScopeRoundTrip(sc: ScopeStack, start: nat)
    requires ScopePush(sc, start).Some? && sc.size <= |sc.cells|
    ensures var sc1 := ScopePush(sc, start).value;
      ScopePop(sc1).Some? && ScopePop(sc1).value.1 == start &&
      ScopePop(sc1).value.0.size == sc.size &&
      ScopePop(sc1).value.0.cells[..sc.size] == sc.cells[..sc.size]
  {
    var sc1 := ScopePush(sc, start).value;
    assert sc1.cells[..sc.size] == sc.cells[..sc.size];
  }

  /** Recording a scope start is defined exactly when the capacity does not
      have to grow and the buffer has room: a growing push writes past the
      byte-sized buffer. */
  lemma ScopePushDefined(sc: ScopeStack, start: nat)
    ensures ScopePush(sc, start).Some? <==> sc.size < sc.capacity && sc.size < |sc.cells|
  {
    if sc.capacity <= sc.size {
      assert 2 * sc.capacity / IntBytes <= sc.size;
    }
  }

  /** From `vm_init`'s 32 cells on, the 33rd nested scope start is undefined. */
  lemma ThirtyThirdScopeFaults(cells: seq<nat>, start: nat)
    requires |cells| == 32
    ensures ScopePush(ScopeStack(cells, 32, 32), start).None?
  {
    ScopePushDefined(ScopeStack(cells, 32, 32), start);
  }

  // ---------------------------------------------------------------------
  // C integer arithmetic

  /** C's `/`: the quotient truncated toward zero. */
  function TruncDiv(a: int, b: int): int
    requires b != 0
  {
    var q := (if a < 0 then -a else a) / (if b < 0 then -b else b);
    if (a < 0) != (b < 0) then -q else q
  }

  /** C's `%`: the remainder that goes with `TruncDiv`. */
  function TruncMod(a: int, b: int): int
    requires b != 0
  {
    a - b * TruncDiv(a, b)
  }

  /** The truncated remainder is the remainder of the magnitudes, with the
      dividend's sign. */
  lemma TruncModMagnitude(a: int, b: int)
    requires b != 0
    ensures var na := if a < 0 then -a else a; var nb := if b < 0 then -b else b;
      TruncMod(a, b) == (if a < 0 then -(na % nb) else na % nb)
  {
    var na := if a < 0 then -a else a;
    var nb := if b < 0 then -b else b;
    var q := na / nb;
    assert na == nb * q + na % nb;
    if b < 0 {
      assert b * (if a < 0 then q else -q) == (if a < 0 then -(nb * q) else nb * q);
    } else {
      assert b * (if a < 0 then -q else q) == (if a < 0 then -(nb * q) else nb * q);
    }
  }

  /** The truncating division and remainder recombine to the dividend; the
      remainder is smaller than the divisor and has the dividend's sign. */
  lemma TruncDivMod(a: int, b: int)
    requires b != 0
    ensures a == b * TruncDiv(a, b) + TruncMod(a, b)
    ensures (if TruncMod(a, b) < 0 then -TruncMod(a, b) else TruncMod(a, b)) < (if b < 0 then -b else b)
    ensures a >= 0 ==> TruncMod(a, b) >= 0
    ensures a <= 0 ==> TruncMod(a, b) <= 0
  {
    var na := if a < 0 then -a else a;
    var nb := if b < 0 then -b else b;
    TruncModMagnitude(a, b);
    assert 0 <= na % nb < nb;
  }

  function BoolInt(b: bool): Int32
  {
    if b then 1 else 0
  }

  /** The arithmetic of one binary command on `int_data`: None for a
      signed overflow or a zero divisor (undefined in C). `IntNotEqCode`
      shares the equality test with `IntEqCode` and its extra conjunct
      `command == IntEqCode` makes it 0. */
  function Arith(op: OpCode, l: Int32, r: Int32): Option<Int32>
    requires BinaryOpcodeOf(op)
  {
    match op
    case IntAddCode => if IsInt32(l + r) then Some(l + r) else None
    case IntSubtractCode => if IsInt32(l - r) then Some(l - r) else None
    case IntMultiplyCode => if IsInt32(l * r) then Some(l * r) else None
    case IntDivideCode =>
      if r == 0 || !IsInt32(TruncDiv(l, r)) then None else Some(TruncDiv(l, r))
    case IntModCode =>
      if r == 0 || !IsInt32(TruncDiv(l, r)) then None else TruncModFits(l, r); Some(TruncMod(l, r))
    case IntEqCode => Some(BoolInt(l == r && op.IntEqCode?))
    case IntNotEqCode => Some(BoolInt(l == r && op.IntEqCode?))
    case IntGtCode => Some(BoolInt(l > r))
    case IntLtCode => Some(BoolInt(l < r))
    case IntGtECode => Some(BoolInt(l >= r))
    case IntLtECode => Some(BoolInt(l <= r))
    case BoolAndCode => Some(BoolInt(l != 0 && r != 0))
    case BoolOrCode => Some(BoolInt(l != 0 || r != 0))
  }

  lemma TruncModFits(l: Int32, r: Int32)
    requires r != 0
    ensures IsInt32(TruncMod(l, r))
  {
    TruncDivMod(l, r);
    var m := TruncMod(l, r);
    var nb: int := if r < 0 then 0 - r else r;
    assert IsInt32(l) && IsInt32(r);
    if l >= 0 {
      assert 0 <= m < nb;
    } else {
      assert 0 - nb < m <= 0;
    }
  }

  /** `!=` never holds: the command always yields 0. */
  lemma NotEqAlwaysZero(l: Int32, r: Int32)
    ensures Arith(IntNotEqCode, l, r) == Some(0)
  {
  }

  /** The comparisons and boolean commands yield 1 exactly when their
      relation holds and 0 otherwise. */
  lemma ComparisonsAreBooleans(l: Int32, r: Int32)
    ensures Arith(IntEqCode, l, r) == Some(if l == r then 1 else 0)
    ensures Arith(IntLtCode, l, r) == Some(if l < r then 1 else 0)
    ensures Arith(IntGtECode, l, r) == Some(if l < r then 0 else 1)
    ensures Arith(IntGtCode, l, r) == Some(if r < l then 1 else 0)
    ensures Arith(IntLtECode, l, r) == Some(if r < l then 0 else 1)
    ensures Arith(BoolAndCode, l, r) == Some(if l == 0 || r == 0 then 0 else 1)
    ensures Arith(BoolOrCode, l, r) == Some(if l == 0 && r == 0 then 0 else 1)
  {
  }

  /** Division and remainder are undefined exactly for a zero divisor and
      for `INT_MIN` by `-1`; otherwise they truncate. */
  lemma DivisionDefined(l: Int32, r: Int32)
    ensures Arith(IntDivideCode, l, r).None? <==> r == 0 || (l == IntMin && r == -1)
    ensures Arith(IntModCode, l, r).None? <==> r == 0 || (l == IntMin && r == -1)
  {
    if r != 0 {
      TruncDivFits(l, r);
    }
  }

  /** The truncated quotient of two `int`s overflows only for `INT_MIN`
      by `-1`. */
  lemma TruncDivFits(l: int, r: int)
    requires IsInt32(l) && IsInt32(r) && r != 0
    ensures IsInt32(TruncDiv(l, r)) <==> !(l == IntMin && r == -1)
  {
    var na: int := if l < 0 then 0 - l else l;
    var nb: int := if r < 0 then 0 - r else r;
    assert 0 <= na <= 0x8000_0000;
    if nb >= 2 {
      DivMonotone(na, nb);
      assert na / nb <= 0x4000_0000;
    } else {
      assert nb == 1;
      assert na / nb == na;
    }
  }

  lemma DivMonotone(a: nat, b: nat)
    requires b >= 2
    ensures a / b <= a / 2
  {
    var q := a / b;
    assert a == b * q + a % b;
    MulAtLeastTwice(b, q);
    assert 2 * q <= a;
  }

  lemma MulAtLeastTwice(b: nat, q: nat)
    requires b >= 2
    ensures b * q >= 2 * q
  {
    var d := b - 2;
    assert b * q == 2 * q + d * q;
  }

  // ---------------------------------------------------------------------
  // The dispatch loop

  /** What the console receives: the popped values of the print commands
      and the diagnostic for an unknown opcode. A string is the raw word. */
  datatype Printed = PrintedInt(i: Int32) | PrintedBool(b: bool) | PrintedStr(word: Int32) | IllegalAt(pc: int)

  /** The commands and their `int_data` arguments, one per command slot. */
  datatype Program = Program(commands: seq<OpCode>, args: seq<Int32>)

  /** The machine: the command counter, the two stacks and the output. */
  datatype MState = MState(pc: int, stack: Stack, scopes: ScopeStack, out: seq<Printed>)

  /** `vm_init`: 128 unwritten stack slots, 32 scope cells, both empty. */
  function Initial(): (s: MState)
    ensures s.pc == 0 && s.stack.size == 0 && |s.stack.slots| == 128
    ensures s.scopes.size == 0 && s.scopes.capacity == 32 && |s.scopes.cells| == 32 && s.out == []
  {
    MState(0, Stack(seq(128, _ => None), 0), ScopeStack(seq(32, _ => 0), 32, 0), [])
  }

  /** `vm->args[command_counter]`. */
  function Arg(p: Program, pc: int): Option<Int32>
  {
    if 0 <= pc < |p.args| then Some(p.args[pc]) else None
  }

  /** The next state with `st` as the stack and the counter advanced. */
  function Advance(s: MState, st: Option<Stack>): Option<MState>
  {
    if st.None? then None else Some(s.(stack := st.value, pc := s.pc + 1))
  }

  /** Whether `i` is an allocated, written slot. */
  predicate Readable(st: Stack, i: int)
  {
    0 <= i < |st.slots| && st.slots[i].Some?
  }

  /** One pass of `vm_run`'s loop at `command_counter == s.pc`. */
  function Step(p: Program, s: MState): Option<MState>
    requires 0 <= s.pc < |p.commands|
  {
    var op := p.commands[s.pc];
    if op.CreateScopeCode? then
      var sc := ScopePush(s.scopes, s.stack.size);
      if sc.None? then None else Some(s.(scopes := sc.value, pc := s.pc + 1))
    else if op.DestroyScopeCode? then
      var r := ScopePop(s.scopes);
      if r.None? then None
      else Some(s.(stack := s.stack.(size := r.value.1), scopes := r.value.0, pc := s.pc + 1))
    else if op.PushCode? then
      if Arg(p, s.pc).None? then None else Advance(s, StackPush(s.stack, Arg(p, s.pc).value))
    else if op.LoadCode? then
      if Arg(p, s.pc).None? then None
      else
        var i := s.stack.size - Arg(p, s.pc).value - 1;
        if !Readable(s.stack, i) then None else Advance(s, StackPush(s.stack, s.stack.slots[i].value))
    else if op.StoreCode? then StoreStep(p, s)
    else if BinaryOpcodeOf(op) then BinaryStep(s, op)
    else if op.BoolNotCode? then
      var e := StackPop(s.stack);
      if e.None? then None else Advance(s, StackPush(e.value.stack, BoolInt(e.value.value == 0)))
    else if op.GotoCode? then
      if Arg(p, s.pc).None? then None else Some(s.(pc := Arg(p, s.pc).value))
    else if op.GotoIfCode? then
      var c := StackPop(s.stack);
      if c.None? then None
      else if c.value.value != 0 then
        if Arg(p, s.pc).None? then None else Some(s.(stack := c.value.stack, pc := Arg(p, s.pc).value))
      else Some(s.(stack := c.value.stack, pc := s.pc + 1))
    else if op.PrintlnIntCode? || op.PrintlnBoolCode? || op.PrintlnStrCode? then
      var d := StackPop(s.stack);
      if d.None? then None
      else
        var line := if op.PrintlnIntCode? then PrintedInt(d.value.value)
                    else if op.PrintlnBoolCode? then PrintedBool(d.value.value != 0)
                    else PrintedStr(d.value.value);
        Some(s.(stack := d.value.stack, out := s.out + [line], pc := s.pc + 1))
    else Some(s.(out := s.out + [IllegalAt(s.pc)], pc := s.pc + 1))
  }

  /** `StoreCode` with offset `o`: nothing for 0, otherwise pop the top
      into the slot `o` below the new top. */
  function StoreStep(p: Program, s: MState): Option<MState>
    requires 0 <= s.pc
  {
    if Arg(p, s.pc).None? then None
    else
      var o := Arg(p, s.pc).value;
      if o == 0 then Some(s.(pc := s.pc + 1))
      else
        var t := StackPop(s.stack);
        if t.None? then None
        else
          var st := t.value.stack;
          var i := st.size - o;
          if 0 <= i < |st.slots| then Some(s.(stack := st.(slots := st.slots[i := Some(t.value.value)]), pc := s.pc + 1))
          else None
  }

  /** A binary command: pop the right operand, then the left one, and push
      the result. */
  function BinaryStep(s: MState, op: OpCode): Option<MState>
    requires BinaryOpcodeOf(op)
  {
    var r := StackPop(s.stack);
    if r.None? then None
    else
      var l := StackPop(r.value.stack);
      if l.None? then None
      else
        var v := Arith(op, l.value.value, r.value.value);
        if v.None? then None else Advance(s, StackPush(l.value.stack, v.value))
  }

  /** A run of at most `fuel` passes: it halts once the counter leaves
      `[0, program_size)` (a negative counter compares as a huge unsigned
      value), pauses when the fuel is spent, and faults on undefined
      behaviour. */
  datatype Run = Halted(final: MState) | Paused(at: MState) | Faulted

  function Exec(p: Program, s: MState, fuel: nat): Run
    decreases fuel
  {
    if !(0 <= s.pc < |p.commands|) then Halted(s)
    else if fuel == 0 then Paused(s)
    else match Step(p, s)
      case None => Faulted
      case Some(s1) => Exec(p, s1, fuel - 1)
  }

  // ---------------------------------------------------------------------
  // Properties of the commands

  /** `CreateScopeCode` records the current stack size and changes nothing
      else; `DestroyScopeCode` drops the latest record and resets the stack
      size to it. */
  lemma ScopeCommands(p: Program, s: MState)
    requires 0 <= s.pc < |p.commands| && s.scopes.size <= |s.scopes.cells|
    ensures p.commands[s.pc].CreateScopeCode? && Step(p, s).Some? ==>
      var s1 := Step(p, s).value;
      s1.stack == s.stack && s1.pc == s.pc + 1 && s1.out == s.out &&
      s1.scopes.size == s.scopes.size + 1 && s1.scopes.cells[s.scopes.size] == s.stack.size &&
      s1.scopes.cells[..s.scopes.size] == s.scopes.cells[..s.scopes.size]
    ensures p.commands[s.pc].DestroyScopeCode? ==>
      (Step(p, s).Some? <==> s.scopes.size > 0) &&
      (s.scopes.size > 0 ==>
        var s1 := Step(p, s).value;
        s1.stack == Stack(s.stack.slots, s.scopes.cells[s.scopes.size - 1]) &&
        s1.scopes.size == s.scopes.size - 1 && s1.pc == s.pc + 1)
  {
    if p.commands[s.pc].CreateScopeCode? && Step(p, s).Some? {
      var s1 := Step(p, s).value;
      assert s1.scopes.cells[..s.scopes.size] == s.scopes.cells[..s.scopes.size];
    }
  }

  /** `LoadCode` with offset `o` pushes a copy of slot `size - o - 1`. */
  lemma LoadCopies(p: Program, s: MState)
    requires 0 <= s.pc < |p.commands| && p.commands[s.pc].LoadCode? && Step(p, s).Some?
    ensures var o := p.args[s.pc];
      var s1 := Step(p, s).value;
      Readable(s.stack, s.stack.size - o - 1) &&
      s1.stack.size == s.stack.size + 1 &&
      s1.stack.slots[s.stack.size] == s.stack.slots[s.stack.size - o - 1] &&
      s1.pc == s.pc + 1 && s1.scopes == s.scopes && s1.out == s.out
  {
    PushEffect(s.stack, s.stack.slots[s.stack.size - p.args[s.pc] - 1].value);
  }

  /** `StoreCode` with a nonzero offset `o` pops the top into the slot
      `size - 1 - o`, one size smaller; with offset 0 it only advances. */
  lemma StoreMoves(p: Program, s: MState)
    requires 0 <= s.pc < |p.commands| && p.commands[s.pc].StoreCode? && Step(p, s).Some?
    ensures var o := p.args[s.pc];
      var s1 := Step(p, s).value;
      s1.pc == s.pc + 1 && s1.scopes == s.scopes && s1.out == s.out &&
      (o == 0 ==> s1.stack == s.stack) &&
      (o != 0 ==>
        s.stack.size > 0 && s1.stack.size == s.stack.size - 1 &&
        s1.stack.slots[s.stack.size - 1 - o] == s.stack.slots[s.stack.size - 1] &&
        forall k :: 0 <= k < s1.stack.size && k != s.stack.size - 1 - o ==> s1.stack.slots[k] == s.stack.slots[k])
  {
    if p.args[s.pc] != 0 {
      PopEffect(s.stack);
    }
  }

  /** A binary command pops the right operand, then the left one, and
      pushes their combination: one value fewer. */
  lemma BinaryCombines(p: Program, s: MState)
    requires 0 <= s.pc < |p.commands| && BinaryOpcodeOf(p.commands[s.pc]) && Step(p, s).Some?
    ensures var s1 := Step(p, s).value;
      var n := s.stack.size;
      n >= 2 && s.stack.slots[n - 2].Some? && s.stack.slots[n - 1].Some? &&
      s1.stack.size == n - 1 &&
      Arith(p.commands[s.pc], s.stack.slots[n - 2].value, s.stack.slots[n - 1].value) == Some(s1.stack.slots[n - 2].value) &&
      s1.stack.slots[n - 2].Some? &&
      (forall k :: 0 <= k < n - 2 ==> s1.stack.slots[k] == s.stack.slots[k]) &&
      s1.pc == s.pc + 1 && s1.scopes == s.scopes && s1.out == s.out
  {
    assert Step(p, s) == BinaryStep(s, p.commands[s.pc]);
    BinaryPops(s, p.commands[s.pc]);
  }

  lemma BinaryPops(s: MState, op: OpCode)
    requires BinaryOpcodeOf(op) && BinaryStep(s, op).Some?
    ensures var s1 := BinaryStep(s, op).value;
      var n := s.stack.size;
      n >= 2 && s.stack.slots[n - 2].Some? && s.stack.slots[n - 1].Some? &&
      s1.stack.size == n - 1 &&
      Arith(op, s.stack.slots[n - 2].value, s.stack.slots[n - 1].value) == Some(s1.stack.slots[n - 2].value) &&
      s1.stack.slots[n - 2].Some? &&
      (forall k :: 0 <= k < n - 2 ==> s1.stack.slots[k] == s.stack.slots[k]) &&
      s1.pc == s.pc + 1 && s1.scopes == s.scopes && s1.out == s.out
  {
    var r := StackPop(s.stack).value;
    PopEffect(s.stack);
    var l := StackPop(r.stack).value;
    PopEffect(r.stack);
    var v := Arith(op, l.value, r.value).value;
    PushEffect(l.stack, v);
  }

  /** `BoolNotCode` replaces the top by 1 when it is 0 and by 0 otherwise. */
  lemma NotNegates(p: Program, s: MState)
    requires 0 <= s.pc < |p.commands| && p.commands[s.pc].BoolNotCode? && Step(p, s).Some?
    ensures var s1 := Step(p, s).value;
      var n := s.stack.size;
      n >= 1 && s.stack.slots[n - 1].Some? && s1.stack.size == n &&
      s1.stack.slots[n - 1] == Some(if s.stack.slots[n - 1].value == 0 then 1 else 0) &&
      (forall k :: 0 <= k < n - 1 ==> s1.stack.slots[k] == s.stack.slots[k]) &&
      s1.pc == s.pc + 1
  {
    PopEffect(s.stack);
    var e := StackPop(s.stack).value;
    PushEffect(e.stack, BoolInt(e.value == 0));
  }

  /** `GotoCode` sets the counter to its operand without advancing;
      `GotoIfCode` pops the condition and jumps exactly when it is nonzero. */
  lemma Jumps(p: Program, s: MState)
    requires 0 <= s.pc < |p.commands| && Step(p, s).Some?
    ensures p.commands[s.pc].GotoCode? ==>
      Step(p, s).value == s.(pc := p.args[s.pc])
    ensures p.commands[s.pc].GotoIfCode? ==>
      var s1 := Step(p, s).value;
      s.stack.size > 0 && s.stack.slots[s.stack.size - 1].Some? && s1.stack.size == s.stack.size - 1 &&
      s1.pc == (if s.stack.slots[s.stack.size - 1].value != 0 then p.args[s.pc] else s.pc + 1)
  {
    if p.commands[s.pc].GotoIfCode? {
      PopEffect(s.stack);
    }
  }

  /** An opcode the loop does not dispatch on (`ReturnCode`) reports the
      counter and advances, leaving both stacks alone. */
  lemma UnknownAdvances(p: Program, s: MState)
    requires 0 <= s.pc < |p.commands| && p.commands[s.pc].ReturnCode?
    ensures Step(p, s) == Some(s.(out := s.out + [IllegalAt(s.pc)], pc := s.pc + 1))
  {
  }

  /** A print command pops the top and appends it to the output: as a
      number, as `false` for 0 and `true` for anything else, or as the
      string word. */
  lemma PrintsPop(p: Program, s: MState)
    requires 0 <= s.pc < |p.commands| && Step(p, s).Some?
    requires p.commands[s.pc].PrintlnIntCode? || p.commands[s.pc].PrintlnBoolCode? || p.commands[s.pc].PrintlnStrCode?
    ensures s.stack.size > 0 && s.stack.slots[s.stack.size - 1].Some?
    ensures var s1 := Step(p, s).value; var v := s.stack.slots[s.stack.size - 1].value;
      s1.stack.size == s.stack.size - 1 && s1.pc == s.pc + 1 &&
      (p.commands[s.pc].PrintlnIntCode? ==> s1.out == s.out + [PrintedInt(v)]) &&
      (p.commands[s.pc].PrintlnBoolCode? ==> s1.out == s.out + [PrintedBool(v != 0)]) &&
      (p.commands[s.pc].PrintlnStrCode? ==> s1.out == s.out + [PrintedStr(v)])
  {
    PopEffect(s.stack);
  }

  // ---------------------------------------------------------------------
  // Properties of runs

  /** A run halts only with the counter outside `[0, program_size)`, and
      at once when it starts there. */
  lemma {:induction false} HaltsOutside(p: Program, s: MState, fuel: nat)
    ensures Exec(p, s, fuel).Halted? ==> !(0 <= Exec(p, s, fuel).final.pc < |p.commands|)
    ensures !(0 <= s.pc < |p.commands|) ==> Exec(p, s, fuel) == Halted(s)
    decreases fuel
  {
    if 0 <= s.pc < |p.commands| && fuel > 0 && Step(p, s).Some? {
      HaltsOutside(p, Step(p, s).value, fuel - 1);
    }
  }

  /** Running `a` passes and then `b` more is running `a + b` passes. */
  lemma {:induction false} ExecCompose(p: Program, s: MState, a: nat, b: nat)
    requires Exec(p, s, a).Paused?
    ensures Exec(p, Exec(p, s, a).at, b) == Exec(p, s, a + b)
    decreases a
  {
    if a > 0 {
      var s1 := Step(p, s).value;
      assert Exec(p, s, a) == Exec(p, s1, a - 1);
      assert Exec(p, s, a + b) == Exec(p, s1, (a - 1) + b);
      ExecCompose(p, s1, a - 1, b);
    }
  }

  /** Without jumps every pass advances the counter by one. */
  lemma StepAdvances(p: Program, s: MState)
    requires 0 <= s.pc < |p.commands| && !p.commands[s.pc].GotoCode? && !p.commands[s.pc].GotoIfCode?
    requires Step(p, s).Some?
    ensures Step(p, s).value.pc == s.pc + 1
  {
  }

  /** A program without jump commands never needs more passes than it has
      commands left: with that much fuel the run halts or faults. */
  lemma {:induction false} JumpFreeTerminates(p: Program, s: MState, fuel: nat)
    requires forall k :: 0 <= k < |p.commands| ==> !p.commands[k].GotoCode? && !p.commands[k].GotoIfCode?
    requires s.pc >= 0 && fuel >= |p.commands| - s.pc
    ensures !Exec(p, s, fuel).Paused?
    decreases fuel
  {
    if 0 <= s.pc < |p.commands| {
      match Step(p, s)
      case None =>
      case Some(s1) =>
        StepAdvances(p, s);
        JumpFreeTerminates(p, s1, fuel - 1);
    }
  }

  // ---------------------------------------------------------------------
  // The imperative machine

  /** `realloc` of an array to `n` elements. */
  method Reallocate<T>(a: array<T>, n: nat, fill: T) returns (b: array<T>)
    ensures fresh(b) && b[..] == Resized(a[..], n, fill)
  {
    b := new T[n](_ => fill);
    var m := if n < a.Length then n else a.Length;
    for i := 0 to m
      invariant forall k :: 0 <= k < i ==> b[k] == a[k]
      invariant forall k :: i <= k < n ==> b[k] == fill
    {
      b[i] := a[i];
    }
  }

  /** The `VM` struct: the program, the operand stack (its array length is
      `stack_capacity`), the scope starts and the printed output. */
  class Machine {
    const commands: seq<OpCode>
    const args: seq<Int32>
    var stack: array<Option<Int32>>
    var stackSize: nat
    var scopeStarts: array<nat>
    var scopeCapacity: nat
    var scopeSize: nat
    var output: seq<Printed>

    function Prog(): Program
    {
      Program(commands, args)
    }

    function StackOf(): Stack
      reads this, stack
    {
      Stack(stack[..], stackSize)
    }

    function ScopesOf(): ScopeStack
      reads this, scopeStarts
    {
      ScopeStack(scopeStarts[..], scopeCapacity, scopeSize)
    }

    function State(pc: int): MState
      reads this, stack, scopeStarts
    {
      MState(pc, StackOf(), ScopesOf(), output)
    }

    /** `vm_init`. */
    constructor (commands: seq<OpCode>, args: seq<Int32>)
      ensures this.commands == commands && this.args == args
      ensures State(0) == Initial()
    {
      this.commands := commands;
      this.args := args;
      stack := new Option<Int32>[128](_ => None);
      stackSize := 0;
      scopeStarts := new nat[32](_ => 0);
      scopeCapacity := 32;
      scopeSize := 0;
      output := [];
      new;
      assert stack[..] == seq(128, _ => None);
      assert scopeStarts[..] == seq(32, _ => 0);
    }

    /** `stack_push`. */
    method Push(v: Int32)
      requires StackPush(StackOf(), v).Some?
      modifies this, stack
      ensures StackOf() == StackPush(old(StackOf()), v).value
      ensures scopeStarts == old(scopeStarts) && ScopesOf() == old(ScopesOf()) && output == old(output)
      ensures stack == old(stack) || fresh(stack)
    {
      if stack.Length <= stackSize {
        stack := Reallocate(stack, 2 * stack.Length, None);
      }
      stack[stackSize] := Some(v);
      stackSize := stackSize + 1;
    }

    /** `stack_pop`. */
    method Pop() returns (v: Int32)
      requires StackPop(StackOf()).Some?
      modifies this, stack
      ensures StackPop(old(StackOf())) == Some(Popped(StackOf(), v))
      ensures scopeStarts == old(scopeStarts) && ScopesOf() == old(ScopesOf()) && output == old(output)
      ensures stack == old(stack) || fresh(stack)
    {
      if stack.Length > 1024 && stackSize <= stack.Length / 3 {
        stack := Reallocate(stack, stack.Length / 2, None);
      }
      stackSize := stackSize - 1;
      v := stack[stackSize].value;
    }

    /** `vm_set_scope_start`; `fault` when the write would land past the
        buffer (undefined in C), in which case it is not made. */
    method SetScopeStart(index: nat) returns (fault: bool)
      modifies this, scopeStarts
      ensures fault <==> ScopePush(old(ScopesOf()), index).None?
      ensures !fault ==> ScopesOf() == ScopePush(old(ScopesOf()), index).value
      ensures stack == old(stack) && stackSize == old(stackSize) && output == old(output)
      ensures scopeStarts == old(scopeStarts) || fresh(scopeStarts)
    {
      if scopeCapacity <= scopeSize {
        scopeCapacity := 2 * scopeCapacity;
        scopeStarts := Reallocate(scopeStarts, scopeCapacity / IntBytes, 0);
      }
      if scopeStarts.Length <= scopeSize {
        return true;
      }
      scopeStarts[scopeSize] := index;
      scopeSize := scopeSize + 1;
      fault := false;
    }

    /** `vm_clear_last_scope`. */
    method ClearLastScope()
      requires ScopePop(ScopesOf()).Some?
      modifies this
      ensures ScopesOf() == ScopePop(old(ScopesOf())).value.0
      ensures StackOf() == old(StackOf()).(size := ScopePop(old(ScopesOf())).value.1)
      ensures stack == old(stack) && scopeStarts == old(scopeStarts) && output == old(output)
    {
      scopeSize := scopeSize - 1;
      stackSize := scopeStarts[scopeSize];
    }

    /** One pass of `vm_run`'s loop; `next` is the new command counter. */
    method Execute(pc: int) returns (next: int)
      requires 0 <= pc < |commands| && Step(Prog(), State(pc)).Some?
      modifies this, stack, scopeStarts
      ensures Step(Prog(), old(State(pc))) == Some(State(next))
      ensures stack == old(stack) || fresh(stack)
      ensures scopeStarts == old(scopeStarts) || fresh(scopeStarts)
    {
      var op := commands[pc];
      next := pc + 1;
      if op.CreateScopeCode? {
        var fault := SetScopeStart(stackSize);
      } else if op.DestroyScopeCode? {
        ClearLastScope();
      } else if op.PushCode? {
        Push(args[pc]);
      } else if op.LoadCode? {
        var offset := args[pc];
        Push(stack[stackSize - offset - 1].value);
      } else if op.StoreCode? {
        var offset := args[pc];
        if offset != 0 {
          var v := Pop();
          stack[stackSize - offset] := Some(v);
        }
      } else if BinaryOpcodeOf(op) {
        var right := Pop();
        var left := Pop();
        var result := Arith(op, left, right).value;
        Push(result);
      } else if op.BoolNotCode? {
        var e := Pop();
        Push(BoolInt(e == 0));
      } else if op.GotoCode? {
        next := args[pc];
      } else if op.GotoIfCode? {
        var condition := Pop();
        if condition != 0 {
          next := args[pc];
        }
      } else if op.PrintlnIntCode? {
        var data := Pop();
        output := output + [PrintedInt(data)];
      } else if op.PrintlnBoolCode? {
        var data := Pop();
        output := output + [PrintedBool(data != 0)];
      } else if op.PrintlnStrCode? {
        var data := Pop();
        output := output + [PrintedStr(data)];
      } else {
        output := output + [IllegalAt(pc)];
      }
    }

    /** `vm_run`, for at most `fuel` passes; `halted` when the counter left
        the program, otherwise the fuel ran out at counter `pc`. */
    method Run(fuel: nat) returns (pc: int, halted: bool)
      requires !Exec(Prog(), State(0), fuel).Faulted?
      modifies this, stack, scopeStarts
      ensures Exec(Prog(), old(State(0)), fuel) == if halted then Halted(State(pc)) else Paused(State(pc))
    {
      pc := 0;
      var left := fuel;
      while 0 <= pc < |commands| && left > 0
        invariant Exec(Prog(), State(pc), left) == Exec(Prog(), old(State(0)), fuel)
        invariant stack == old(stack) || fresh(stack)
        invariant scopeStarts == old(scopeStarts) || fresh(scopeStarts)
        decreases left
      {
        pc := Execute(pc);
        left := left - 1;
      }
      halted := !(0 <= pc < |commands|);
    }
  }
}
