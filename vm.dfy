/**
  The virtual machine object: the loaded program, the operand stack, the global
  map and the instruction pointer, updated in place by `Run`. Every method is
  proved against the pure semantics of module `Machine`.
*/
module Vm {
  import opened Wrappers
  import opened Machine

  class VirtualMachine {
    var bytecode: seq<Bytecode>
    var constants: seq<RuntimeValue>
    var stack: seq<RuntimeValue>
    var globals: map<string, RuntimeValue>
    var ip: nat
    /** What the machine has written to standard output so far. */
    var output: seq<Printed>

    /** The part of the object `run` changes. */
    function Snapshot(): State
      reads this
    {
      State(stack, globals, ip, output)
    }

    constructor ()
      ensures bytecode == [] && constants == [] && stack == [] && globals == map[] && ip == 0 && output == []
    {
      bytecode := [];
      constants := [];
      stack := [];
      globals := map[];
      ip := 0;
      output := [];
    }

    /** Replaces the program and rewinds `ip`; the stack and the globals are kept. */
    method LoadBytecode(code: seq<Bytecode>, pool: seq<RuntimeValue>)
      modifies this
      ensures bytecode == code && constants == pool && ip == 0
      ensures stack == old(stack) && globals == old(globals) && output == old(output)
    {
      bytecode := code;
      constants := pool;
      ip := 0;
    }

    /** `pop_value`: the top of the stack, or `StackUnderflow` when it is empty. */
    method PopValue() returns (r: Result<RuntimeValue, VmError>)
      modifies this
      ensures old(stack) == [] ==> r == Err(StackUnderflow) && stack == []
      ensures old(stack) != [] ==> r.Ok? && stack + [r.value] == old(stack)
      ensures bytecode == old(bytecode) && constants == old(constants)
      ensures globals == old(globals) && ip == old(ip) && output == old(output)
    {
      if stack == [] {
        return Err(StackUnderflow);
      }
      r := Ok(stack[|stack| - 1]);
      stack := stack[..|stack| - 1];
    }

    /** The fetch/dispatch loop. */
    method Run() returns (r: Result<RuntimeValue, VmError>)
      modifies this
      ensures bytecode == old(bytecode) && constants == old(constants)
      ensures r == RunFrom(bytecode, constants, old(Snapshot())).result
      ensures Snapshot() == RunFrom(bytecode, constants, old(Snapshot())).state
    {
      while ip < |bytecode|
        invariant bytecode == old(bytecode) && constants == old(constants)
        invariant RunFrom(bytecode, constants, Snapshot()).result == RunFrom(bytecode, constants, old(Snapshot())).result
        invariant RunFrom(bytecode, constants, Snapshot()).state == RunFrom(bytecode, constants, old(Snapshot())).state
        decreases |bytecode| - ip
      {
        ghost var before := Snapshot();
        var instruction := bytecode[ip];
        ip := ip + 1;
        var status := Execute(instruction);
        assert Step(bytecode, constants, before) == Settled(status, Snapshot());
        if status.Err? {
          return Err(status.error);
        }
      }
      if stack == [] {
        r := Ok(Null);
      } else {
        r := Ok(stack[|stack| - 1]);
        stack := stack[..|stack| - 1];
      }
    }

    /** The body of the loop for one instruction. */
    method Execute(instruction: Bytecode) returns (status: Result<(), VmError>)
      modifies this
      ensures bytecode == old(bytecode) && constants == old(constants)
      ensures Settled(status, Snapshot()) == Machine.Execute(instruction, constants, old(Snapshot()))
    {
      if instruction.IsDataMove() {
        status := DataMove(instruction);
      } else if instruction.IsBinary() {
        status := Binary(instruction);
      } else if instruction.IsEffect() {
        status := Effect(instruction);
      } else {
        status := Err(Unsupported(instruction));
      }
    }

    /** Output, calls, `Return` and `Pop`. */
    method Effect(instruction: Bytecode) returns (status: Result<(), VmError>)
      requires instruction.IsEffect()
      modifies this
      ensures bytecode == old(bytecode) && constants == old(constants)
      ensures Settled(status, Snapshot()) == ExecuteEffect(instruction, old(Snapshot()))
    {
      match instruction {
        case Print =>
          var value :- PopValue();
          output := output + [Printed(value, false)];
        case Puts =>
          var value :- PopValue();
          output := output + [Printed(value, true)];
        case Call(n) =>
          status := CallByName(n);
          return;
        case CallBuiltin(id) =>
          if id == 0 || id == 1 {
            status := Builtin(id == 0);
            return;
          }
          return Err(UnknownBuiltin(id));
        case Return =>
          if stack != [] {
            stack := stack[..|stack| - 1];
          }
        case Pop =>
          if stack != [] {
            stack := stack[..|stack| - 1];
          }
      }
      return Ok(());
    }

    /** The instructions that move values between the constant pool, the stack and the globals. */
    method DataMove(instruction: Bytecode) returns (status: Result<(), VmError>)
      requires instruction.IsDataMove()
      modifies this
      ensures bytecode == old(bytecode) && constants == old(constants)
      ensures Settled(status, Snapshot()) == ExecuteDataMove(instruction, constants, old(Snapshot()))
    {
      match instruction {
        case LoadConst(index) =>
          if index >= |constants| {
            return Err(ConstantOutOfRange(index));
          }
          stack := stack + [constants[index]];
        case StoreLocal(_) =>
          var _ :- PopValue();
        case LoadLocal(_) =>
        case StoreGlobal(name) =>
          var value :- PopValue();
          globals := globals[name := value];
        case LoadGlobal(name) =>
          if name in globals {
            stack := stack + [globals[name]];
          } else {
            stack := stack + [Integer(0)];
          }
      }
      return Ok(());
    }

    /** Arithmetic and comparison: pop the right operand, then the left, push the result. */
    method Binary(op: Bytecode) returns (status: Result<(), VmError>)
      requires op.IsBinary()
      modifies this
      ensures bytecode == old(bytecode) && constants == old(constants)
      ensures Settled(status, Snapshot()) == ExecuteBinary(op, old(Snapshot()))
    {
      var right :- PopValue();
      var left :- PopValue();
      assert old(stack)[..|old(stack)| - 2] == stack;
      assert old(stack)[|old(stack)| - 2] == left && old(stack)[|old(stack)| - 1] == right;
      var value :- BinaryResult(op, left, right);
      stack := stack + [value];
      return Ok(());
    }

    /** Builtin `puts` (with a newline) or `print`: pop the argument, write it, push `Null`. */
    method Builtin(newline: bool) returns (status: Result<(), VmError>)
      modifies this
      ensures bytecode == old(bytecode) && constants == old(constants)
      ensures Settled(status, Snapshot()) == ExecuteBuiltin(newline, old(Snapshot()))
    {
      var argument :- PopValue();
      output := output + [Printed(argument, newline)];
      stack := stack + [Null];
      return Ok(());
    }

    /** `Call(n)`: the callee's name is on top of the stack. */
    method CallByName(argumentCount: nat) returns (status: Result<(), VmError>)
      modifies this
      ensures bytecode == old(bytecode) && constants == old(constants)
      ensures Settled(status, Snapshot()) == ExecuteCall(argumentCount, old(Snapshot()))
    {
      var callee :- PopValue();
      if !callee.String? {
        return Err(CalleeNotString);
      }
      var name := callee.s;
      if name != "puts" && name != "print" {
        return Err(UnknownFunction(name));
      }
      if argumentCount != 1 {
        return Err(WrongArgumentCount(name));
      }
      status := Builtin(name == "puts");
    }
  }
}
