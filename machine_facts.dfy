/** Properties of the virtual machine's instructions and of whole runs. */
module MachineFacts {
  import opened Wrappers
  import opened Decimal
  import opened Machine

  /** Rust's integer `/` and `%` agree: `a == b * q + r`, the remainder is smaller than the divisor and signed like the dividend. */
  lemma TruncatedDivision(a: int, b: int)
    requires b != 0
    ensures a == b * TruncDiv(a, b) + TruncMod(a, b)
    ensures Magnitude(TruncMod(a, b)) < Magnitude(b)
    ensures TruncMod(a, b) != 0 ==> (TruncMod(a, b) < 0 <==> a < 0)
    ensures Magnitude(TruncDiv(a, b)) * Magnitude(b) <= Magnitude(a)
  {
    var m, n := Magnitude(a), Magnitude(b);
    var q: int, r: int := m / n, m % n;
    EuclideanOnMagnitudes(m, n);
    var p: int := n * q;
    QuotientTimesDivisor(a, b, q, p);
    assert Magnitude(TruncDiv(a, b)) == q;
    assert q * n == p;
  }

  /** The divisor times the truncated quotient is the magnitudes' product, signed like the dividend. */
  lemma QuotientTimesDivisor(a: int, b: int, q: int, p: int)
    requires b != 0 && q == Magnitude(a) / Magnitude(b) && p == Magnitude(b) * q
    ensures b * TruncDiv(a, b) == if a < 0 then -p else p
  {
    SignedProduct(b, Magnitude(b), q);
    if (a < 0) == (b < 0) {
      assert TruncDiv(a, b) == q;
    } else {
      assert TruncDiv(a, b) == -q;
    }
  }

  lemma EuclideanOnMagnitudes(m: nat, n: nat)
    requires n > 0
    ensures m == n * (m / n) + m % n && 0 <= m % n < n
    ensures (m / n) * n <= m
  {
    assert (m / n) * n == n * (m / n);
  }

  lemma SignedProduct(b: int, n: nat, q: int)
    requires n == Magnitude(b)
    ensures b < 0 ==> b * q == -(n * q) && b * -q == n * q
    ensures b >= 0 ==> b * q == n * q && b * -q == -(n * q)
  {
  }

  /** `i64::MIN / -1` and `i64::MIN % -1` overflow and panic. */
  lemma MinimumByMinusOne(op: Bytecode, constants: seq<RuntimeValue>, s: State, rest: seq<RuntimeValue>)
    requires op.Div? || op.Mod?
    requires s.stack == rest + [Integer(I64Min), Integer(-1)]
    ensures Execute(op, constants, s) == Fault(s.(stack := rest), IntegerOverflow)
  {
    assert s.stack[..|s.stack| - 2] == rest;
    if op.Div? {
      assert TruncDiv(I64Min, -1) == I64Max + 1;
    }
  }

  /** A zero divisor stops `Div` and `Mod` with their own errors, the operands gone. */
  lemma DivideByZero(op: Bytecode, constants: seq<RuntimeValue>, s: State, rest: seq<RuntimeValue>,
                     left: RuntimeValue, zero: RuntimeValue)
    requires op.Div? || op.Mod?
    requires (left.Integer? && zero == Integer(0)) || (left.Float? && zero == Float(0.0))
    requires s.stack == rest + [left, zero]
    ensures Execute(op, constants, s) == Fault(s.(stack := rest), if op.Div? then DivisionByZero else ModuloByZero)
  {
    assert s.stack[..|s.stack| - 2] == rest;
  }

  /**
    Arithmetic pops the right operand, then the left. It needs two integers or
    two floats, else it is a type error; on success the stack is one shorter,
    with the result on top of what lay under the operands.
  */
  lemma ArithmeticOperands(op: Bytecode, constants: seq<RuntimeValue>, s: State, rest: seq<RuntimeValue>,
                           left: RuntimeValue, right: RuntimeValue)
    requires op.IsArithmetic()
    requires s.stack == rest + [left, right]
    ensures var r := Execute(op, constants, s);
      && (r.Next? ==> BothIntegers(left, right) || BothFloats(left, right))
      && (r.Next? ==> r.state.stack == rest + [BinaryResult(op, left, right).value])
      && (r.Fault? ==> r.state.stack == rest)
      && (!BothIntegers(left, right) && !BothFloats(left, right) ==> r == Fault(s.(stack := rest), NonNumeric(op)))
  {
    assert s.stack[..|s.stack| - 2] == rest;
  }

  /** Integer addition, subtraction and multiplication are exact within `i64`, and panic outside it. */
  lemma IntegerArithmeticExact(op: Bytecode, constants: seq<RuntimeValue>, s: State, rest: seq<RuntimeValue>, a: I64, b: I64)
    requires op.Add? || op.Sub? || op.Mul?
    requires s.stack == rest + [Integer(a), Integer(b)]
    ensures var exact := if op.Add? then a + b else if op.Sub? then a - b else a * b;
      Execute(op, constants, s) ==
        if I64Min <= exact <= I64Max then Next(s.(stack := rest + [Integer(exact)]))
        else Fault(s.(stack := rest), IntegerOverflow)
  {
    assert s.stack[..|s.stack| - 2] == rest;
  }

  /** `Eq` and `Ne` never fail on two operands; they push a Boolean, `Ne` the negation of `Eq`. */
  lemma EqualityAlwaysPushesBoolean(constants: seq<RuntimeValue>, s: State, rest: seq<RuntimeValue>,
                                    left: RuntimeValue, right: RuntimeValue)
    requires s.stack == rest + [left, right]
    ensures Execute(Eq, constants, s) == Next(s.(stack := rest + [Boolean(ValuesEqual(left, right))]))
    ensures Execute(Ne, constants, s) == Next(s.(stack := rest + [Boolean(!ValuesEqual(left, right))]))
  {
    assert s.stack[..|s.stack| - 2] == rest;
  }

  /** `Lt`, `Gt`, `Le` and `Ge` push a Boolean for two integers or two floats and are a type error otherwise. */
  lemma OrderingNeedsNumbers(op: Bytecode, constants: seq<RuntimeValue>, s: State, rest: seq<RuntimeValue>,
                             left: RuntimeValue, right: RuntimeValue)
    requires op.IsOrdering()
    requires s.stack == rest + [left, right]
    ensures BothIntegers(left, right) || BothFloats(left, right) ==>
      Execute(op, constants, s).Next? && Execute(op, constants, s).state.stack[..|rest|] == rest
      && Execute(op, constants, s).state.stack[|rest|].Boolean?
    ensures !BothIntegers(left, right) && !BothFloats(left, right) ==>
      Execute(op, constants, s) == Fault(s.(stack := rest), NonNumeric(op))
  {
    assert s.stack[..|s.stack| - 2] == rest;
  }

  predicate SameVariant(a: RuntimeValue, b: RuntimeValue) {
    && a.Integer? == b.Integer? && a.Float? == b.Float? && a.String? == b.String?
    && a.Boolean? == b.Boolean? && a.Function? == b.Function? && a.Null? == b.Null?
  }

  /** Values of different variants are never equal. */
  lemma DifferentVariantsNeverEqual(a: RuntimeValue, b: RuntimeValue)
    requires !SameVariant(a, b)
    ensures !ValuesEqual(a, b)
  {
  }

  /** Functions are equal exactly when their names are, whatever their entry points and arities. */
  lemma FunctionsCompareByName(a: RuntimeValue, b: RuntimeValue)
    requires a.Function? && b.Function?
    ensures ValuesEqual(a, b) <==> a.name == b.name
  {
  }

  /** Apart from floats and functions, runtime equality is plain equality of values. */
  lemma EqualityIsIdentityOnExactValues(a: RuntimeValue, b: RuntimeValue)
    requires !a.Float? && !a.Function?
    ensures ValuesEqual(a, b) <==> a == b
  {
  }

  lemma EqualitySymmetric(a: RuntimeValue, b: RuntimeValue)
    ensures ValuesEqual(a, b) == ValuesEqual(b, a)
  {
  }

  lemma EqualityReflexive(a: RuntimeValue)
    ensures ValuesEqual(a, a)
  {
  }

  /** The epsilon comparison of floats is not transitive. */
  lemma FloatEqualityNotTransitive()
    ensures exists x: real, y: real, z: real ::
      ValuesEqual(Float(x), Float(y)) && ValuesEqual(Float(y), Float(z)) && !ValuesEqual(Float(x), Float(z))
  {
    var e := Epsilon;
    assert ValuesEqual(Float(0.0), Float(e * 0.75)) && ValuesEqual(Float(e * 0.75), Float(e * 1.5));
    assert !ValuesEqual(Float(0.0), Float(e * 1.5));
  }

  /** `Pop` and `Return` on an empty stack do nothing. */
  lemma DiscardOnEmptyStack(op: Bytecode, constants: seq<RuntimeValue>, s: State)
    requires op.Pop? || op.Return?
    requires s.stack == []
    ensures Execute(op, constants, s) == Next(s)
  {
  }

  /** `Return` leaves no frame: execution carries on with the next instruction. */
  lemma ReturnFallsThrough(code: seq<Bytecode>, constants: seq<RuntimeValue>, s: State, rest: seq<RuntimeValue>, v: RuntimeValue)
    requires s.ip < |code| && code[s.ip] == Return
    requires s.stack == rest + [v]
    ensures RunFrom(code, constants, s).result == RunFrom(code, constants, s.(ip := s.ip + 1, stack := rest)).result
  {
    var s' := s.(ip := s.ip + 1, stack := rest);
    assert s.stack[..|s.stack| - 1] == rest;
    assert ExecuteEffect(Return, s.(ip := s.ip + 1)) == Next(s');
    assert Step(code, constants, s) == Next(s');
  }

  /** `LoadGlobal` pushes the stored value, or `Integer(0)` for a name never stored. */
  lemma LoadGlobalReadsOrZero(name: string, constants: seq<RuntimeValue>, s: State)
    ensures var r := Execute(LoadGlobal(name), constants, s);
      && r.Next? && |r.state.stack| == |s.stack| + 1 && r.state.stack[..|s.stack|] == s.stack
      && r.state.stack[|s.stack|] == (if name in s.globals then s.globals[name] else Integer(0))
  {
    var r := Execute(LoadGlobal(name), constants, s);
    assert r.state.stack[..|s.stack|] == s.stack;
  }

  /** A store followed by a load of the same name gives back the stored value and keeps it. */
  lemma StoreThenLoadGlobal(name: string, constants: seq<RuntimeValue>, s: State, rest: seq<RuntimeValue>, v: RuntimeValue)
    requires s.stack == rest + [v]
    ensures var code := [StoreGlobal(name), LoadGlobal(name)];
      var r := RunFrom(code, constants, s.(ip := 0));
      && r.result == Ok(v)
      && r.state.stack == rest
      && r.state.globals == s.globals[name := v]
  {
    var code := [StoreGlobal(name), LoadGlobal(name)];
    var s0 := s.(ip := 0);
    assert s.stack[..|s.stack| - 1] == rest;
    var s1 := s.(ip := 1, stack := rest, globals := s.globals[name := v]);
    assert Step(code, constants, s0) == Next(s1);
    var s2 := s1.(ip := 2, stack := rest + [v]);
    assert Step(code, constants, s1) == Next(s2);
    assert s2.stack[..|s2.stack| - 1] == rest;
    assert RunFrom(code, constants, s2) == RunResult(Ok(v), s2.(stack := rest), 0);
    assert RunFrom(code, constants, s1).result == Ok(v);
  }

  /** Only `StoreGlobal` changes the globals: a run over code without one leaves them as they were. */
  lemma {:induction false} RunKeepsGlobals(code: seq<Bytecode>, constants: seq<RuntimeValue>, s: State)
    requires forall i | 0 <= i < |code| :: !code[i].StoreGlobal?
    ensures RunFrom(code, constants, s).state.globals == s.globals
    decreases |code| - s.ip
  {
    if s.ip < |code| {
      match Step(code, constants, s)
      case Next(s') => RunKeepsGlobals(code, constants, s');
      case Fault(_, _) =>
    }
  }

  /** Builtin 0 writes its argument with a newline, 1 without; both leave `Null`. Other ids are errors. */
  lemma CallBuiltinWrites(id: nat, constants: seq<RuntimeValue>, s: State, rest: seq<RuntimeValue>, v: RuntimeValue)
    requires s.stack == rest + [v]
    ensures id <= 1 ==> (Execute(CallBuiltin(id), constants, s)
      == Next(s.(stack := rest + [Null], output := s.output + [Printed(v, id == 0)])))
    ensures id > 1 ==> Execute(CallBuiltin(id), constants, s) == Fault(s, UnknownBuiltin(id))
  {
    assert s.stack[..|s.stack| - 1] == rest;
  }

  /** `Call(1)` with the name `puts` or `print` on top of its argument behaves as the builtin. */
  lemma CallByNameWrites(constants: seq<RuntimeValue>, s: State, rest: seq<RuntimeValue>, v: RuntimeValue, name: string)
    requires name == "puts" || name == "print"
    requires s.stack == rest + [v, String(name)]
    ensures Execute(Call(1), constants, s)
      == Next(s.(stack := rest + [Null], output := s.output + [Printed(v, name == "puts")]))
  {
    assert s.stack[..|s.stack| - 1] == rest + [v];
    assert (rest + [v])[..|rest + [v]| - 1] == rest;
  }

  /** Any other callee is an error: a non-string, an unknown name, or a builtin name with another count. */
  lemma CallByNameFails(n: nat, constants: seq<RuntimeValue>, s: State, rest: seq<RuntimeValue>, callee: RuntimeValue)
    requires s.stack == rest + [callee]
    ensures !callee.String? ==> Execute(Call(n), constants, s) == Fault(s.(stack := rest), CalleeNotString)
    ensures callee.String? && callee.s != "puts" && callee.s != "print" ==>
      Execute(Call(n), constants, s) == Fault(s.(stack := rest), UnknownFunction(callee.s))
    ensures callee.String? && (callee.s == "puts" || callee.s == "print") && n != 1 ==>
      Execute(Call(n), constants, s) == Fault(s.(stack := rest), WrongArgumentCount(callee.s))
  {
    assert s.stack[..|s.stack| - 1] == rest;
  }

  /**
    How far a successful instruction moves the stack height. `Pop` and
    `Return` only shrink a non-empty stack; `Call` succeeds only for one
    argument, popping the name and the argument and pushing `Null`.
  */
  function Effect(i: Bytecode): int {
    match i
    case LoadConst(_) => 1
    case LoadGlobal(_) => 1
    case Dup => 1
    case LoadLocal(_) => 0
    case CallBuiltin(_) => 0
    case Call(n) => -(n as int)
    case Jump(_) => 0
    case JumpIfFalse(_) => 0
    case JumpIfTrue(_) => 0
    case _ => -1
  }

  /** Every two-operand instruction takes two values and leaves one. */
  lemma BinaryEffect(i: Bytecode)
    requires i.IsBinary()
    ensures Effect(i) == -1
  {
  }

  /** The stack height after a successful instruction is the height before plus its effect. */
  lemma StackEffectExact(i: Bytecode, constants: seq<RuntimeValue>, s: State)
    requires Execute(i, constants, s).Next?
    requires (i.Pop? || i.Return?) ==> s.stack != []
    ensures |Execute(i, constants, s).state.stack| == |s.stack| + Effect(i)
  {
  }

  /** What `value_to_string` writes for an integer reads back as that integer. */
  lemma IntegerTextReadsBack(i: I64, floatText: real -> string)
    ensures ReadInteger(ValueToString(Integer(i), floatText)) == i
  {
    IntTextReadsBack(i);
  }

  lemma IntTextReadsBack(i: int)
    ensures ReadInteger(IntToDecimal(i)) == i
  {
    var s := IntToDecimal(i);
    if i < 0 {
      var digits := NatToDecimal(-i);
      assert s[1..] == digits;
      DecimalRoundTrip(-i);
    } else {
      assert IsDigit(s[0]);
      DecimalRoundTrip(i);
    }
  }

  /** A reader for the decimal spelling of an integer, with an optional leading '-'. */
  function ReadInteger(s: string): int {
    if |s| > 0 && s[0] == '-' && AllDigits(s[1..]) then -(DecimalValue(s[1..]) as int)
    else if AllDigits(s) then DecimalValue(s)
    else 0
  }
}
