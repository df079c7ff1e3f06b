/**
 * Properties of the Intcode decoder, of single steps and of whole runs,
 * stated over the pure model in module Intcode.
 */
module IntcodeProperties {
  import opened Wrappers
  import opened Intcode

  // ---------------------------------------------------------------------------
  // Decoding
  // ---------------------------------------------------------------------------

  /** On a well-formed word the decoder reads the op from the last two digits and the modes from the next three. */
  lemma {:induction false} DecodeDigits(v: int)
    requires WellFormedWord(v)
    ensures DecodeOpCode(v).Ok?
    ensures DecodeOpCode(v).value.op == v % 100
    ensures ModeToInt(DecodeOpCode(v).value.arg0) == (v / 100) % 10
    ensures ModeToInt(DecodeOpCode(v).value.arg1) == (v / 1000) % 10
    ensures ModeToInt(DecodeOpCode(v).value.arg2) == v / 10000
  {
    DecodeOkIff(v);
    var d2 := v / 10000;
    var v1 := v - 10000 * d2;
    assert v1 == v % 10000;
    ThousandsDigit(v);
    var d1 := v1 / 1000;
    var v2 := v1 - 1000 * d1;
    assert v2 == v % 1000;
    HundredsDigit(v);
    var d0 := v2 / 100;
    assert v2 - 100 * d0 == v % 100;
  }

  /**
   * For a non-negative word the mode digits are checked from the
   * ten-thousands place down, the first bad one is reported with its index,
   * and an op of 00 is rejected last.
   */
  lemma {:induction false} DecodeErrorOrder(v: int)
    requires v >= 0
    ensures v / 10000 > 1 ==>
      DecodeOpCode(v) == Err(InvalidParamMode(2, UnrecognisedMode(v / 10000)))
    ensures v / 10000 <= 1 && (v / 1000) % 10 > 1 ==>
      DecodeOpCode(v) == Err(InvalidParamMode(1, UnrecognisedMode((v / 1000) % 10)))
    ensures v / 10000 <= 1 && (v / 1000) % 10 <= 1 && (v / 100) % 10 > 1 ==>
      DecodeOpCode(v) == Err(InvalidParamMode(0, UnrecognisedMode((v / 100) % 10)))
    ensures v / 10000 <= 1 && (v / 1000) % 10 <= 1 && (v / 100) % 10 <= 1 && v % 100 == 0 ==>
      DecodeOpCode(v) == Err(InvalidOpcode(0))
  {
    var d2 := v / 10000;
    if d2 <= 1 {
      var v1 := v - 10000 * d2;
      assert v1 == v % 10000;
      ThousandsDigit(v);
      var d1 := v1 / 1000;
      if d1 <= 1 {
        var v2 := v1 - 1000 * d1;
        assert v2 == v % 1000;
        HundredsDigit(v);
        var d0 := v2 / 100;
        if d0 <= 1 {
          assert v2 - 100 * d0 == v % 100;
        }
      }
    }
  }

  /** A negative word never decodes; above -100 it is reported as the invalid op itself. */
  lemma {:induction false} NegativeWordRejected(v: int)
    requires v < 0
    ensures DecodeOpCode(v).Err?
    ensures -100 < v ==> DecodeOpCode(v) == Err(InvalidOpcode(v))
  {
    DecodeOkIff(v);
    if -100 < v {
      assert TruncDiv(v, ARG2_MASK) == 0;
      assert TruncDiv(v, ARG1_MASK) == 0;
      assert TruncDiv(v, ARG0_MASK) == 0;
    }
  }

  /** The decoder's fixed examples, including words the run loop later rejects. */
  lemma DecodeExamples()
    ensures DecodeOpCode(10010) == Ok(OpCode(10, Position, Position, Immediate))
    ensures DecodeOpCode(1009) == Ok(OpCode(9, Position, Immediate, Position))
    ensures DecodeOpCode(188) == Ok(OpCode(88, Immediate, Position, Position))
    ensures DecodeOpCode(11111) == Ok(OpCode(11, Immediate, Immediate, Immediate))
    ensures DecodeOpCode(-1) == Err(InvalidOpcode(-1))
    ensures DecodeOpCode(-150) == Err(InvalidParamMode(0, UnrecognisedMode(-1)))
    ensures DecodeOpCode(21001) == Err(InvalidParamMode(2, UnrecognisedMode(2)))
    ensures DecodeOpCode(100) == Err(InvalidOpcode(0))
  {
  }

  // ---------------------------------------------------------------------------
  // Building operations
  // ---------------------------------------------------------------------------

  /** A fetch past the end, an undecodable word and an op outside 1..8 and 99 are the three early failures. */
  lemma ParseOpErrors(mem: seq<i32>, ip: nat)
    ensures ip >= |mem| ==> ParseOp(mem, ip) == Err(ReadOutOfRange(ip))
    ensures ip < |mem| && DecodeOpCode(mem[ip] as int).Err? ==>
      ParseOp(mem, ip) == Err(BadOp(InvalidOpCode(DecodeOpCode(mem[ip] as int).error)))
    ensures ip < |mem| && DecodeOpCode(mem[ip] as int).Ok? &&
            !(1 <= DecodeOpCode(mem[ip] as int).value.op <= 8 || DecodeOpCode(mem[ip] as int).value.op == 99) ==>
      ParseOp(mem, ip) == Err(BadOp(UnrecognisedOpCode(DecodeOpCode(mem[ip] as int).value.op)))
  {
  }

  /**
   * A write target in Immediate mode is refused: as parameter 3 of Add, Mul,
   * LessThan and Equals once the two operands resolve, and as parameter 1 of
   * Input.
   */
  lemma ImmediateTargetRejected(mem: seq<i32>, ip: nat)
    requires ip < |mem| && DecodeOpCode(mem[ip] as int).Ok?
    ensures var oc := DecodeOpCode(mem[ip] as int).value;
      (oc.op == 1 || oc.op == 2 || oc.op == 7 || oc.op == 8) && ip + 3 < |mem| && oc.arg2 == Immediate &&
      ParseParam(mem, ip, 1, oc.arg0).Ok? && ParseParam(mem, ip, 2, oc.arg1).Ok? ==>
        ParseOp(mem, ip) == Err(BadOp(ImmediateTargetParam(3)))
    ensures var oc := DecodeOpCode(mem[ip] as int).value;
      oc.op == 3 && ip + 1 < |mem| && oc.arg0 == Immediate ==>
        ParseOp(mem, ip) == Err(BadOp(ImmediateTargetParam(1)))
  {
    var oc := DecodeOpCode(mem[ip] as int).value;
    ParseTargetCases(mem, ip, 3, oc.arg2);
    ParseTargetCases(mem, ip, 1, oc.arg0);
  }

  // ---------------------------------------------------------------------------
  // Single steps
  // ---------------------------------------------------------------------------

  /** `n` is `m` with the word at `dest` replaced by `value` and nothing else changed. */
  predicate WritesOnly(m: Machine, n: Machine, dest: nat, value: int)
  {
    dest < |m.mem| && |n.mem| == |m.mem| && n.mem[dest] as int == value &&
    (forall i :: 0 <= i < |m.mem| && i != dest ==> n.mem[i] == m.mem[i]) &&
    n.ip == m.ip && n.input == m.input && n.output == m.output
  }

  /** Add stores the sum of its operands at the target and moves on by four; a sum outside i32 is an overflow. */
  lemma ExecAdd(m: Machine, left: Param, right: Param, dest: nat)
    requires ParseOp(m.mem, m.ip) == Ok(Add(left, right, dest))
    ensures var sum := ReadParam(m.mem, left) as int + ReadParam(m.mem, right) as int;
      if InWordRange(sum) then Exec(m).Ok? && Exec(m).value.1 == Increase(4) && WritesOnly(m, Exec(m).value.0, dest, sum)
      else Exec(m) == Err(ArithmeticOverflow)
  {
  }

  /** Mul stores the product of its operands at the target and moves on by four; a product outside i32 is an overflow. */
  lemma ExecMul(m: Machine, left: Param, right: Param, dest: nat)
    requires ParseOp(m.mem, m.ip) == Ok(Mul(left, right, dest))
    ensures var product := ReadParam(m.mem, left) as int * ReadParam(m.mem, right) as int;
      if InWordRange(product) then Exec(m).Ok? && Exec(m).value.1 == Increase(4) && WritesOnly(m, Exec(m).value.0, dest, product)
      else Exec(m) == Err(ArithmeticOverflow)
  {
  }

  /** LessThan and Equals store 1 when the comparison holds and 0 otherwise, and move on by four. */
  lemma ExecCompare(m: Machine, op: Op)
    requires ParseOp(m.mem, m.ip) == Ok(op) && (op.LessThan? || op.Equals?)
    ensures Exec(m).Ok? && Exec(m).value.1 == Increase(4)
    ensures var a, b := ReadParam(m.mem, op.left), ReadParam(m.mem, op.right);
      op.LessThan? ==> WritesOnly(m, Exec(m).value.0, op.dest, if a < b then 1 else 0)
    ensures var a, b := ReadParam(m.mem, op.left), ReadParam(m.mem, op.right);
      op.Equals? ==> WritesOnly(m, Exec(m).value.0, op.dest, if a == b then 1 else 0)
  {
  }

  /** Input takes the front of the queue, stores it at the target and moves on by two; an empty queue is fatal. */
  lemma ExecInput(m: Machine, dest: nat)
    requires ParseOp(m.mem, m.ip) == Ok(Input(dest))
    ensures m.input == [] <==> Exec(m) == Err(InputExhausted)
    ensures m.input != [] ==> Exec(m).Ok? && Exec(m).value.1 == Increase(2)
    ensures m.input != [] ==>
      WritesOnly(m.(input := m.input[1..]), Exec(m).value.0, dest, m.input[0] as int)
  {
  }

  /** Output appends its operand to the log, leaves memory and the queue alone, and moves on by two. */
  lemma ExecOutput(m: Machine, src: Param)
    requires ParseOp(m.mem, m.ip) == Ok(Output(src))
    ensures Exec(m) == Ok((m.(output := m.output + [ReadParam(m.mem, src)]), Increase(2)))
  {
  }

  /**
   * The jumps change no state. JumpIfTrue jumps exactly when its condition is
   * positive and JumpIfFalse exactly when it is zero, to the target word taken
   * as an unsigned address; otherwise both move on by three.
   */
  lemma ExecJump(m: Machine, op: Op)
    requires ParseOp(m.mem, m.ip) == Ok(op) && (op.JumpIfTrue? || op.JumpIfFalse?)
    ensures Exec(m).Ok? && Exec(m).value.0 == m
    ensures var c := ReadParam(m.mem, op.cond);
      var taken := if op.JumpIfTrue? then c > 0 else c == 0;
      Exec(m).value.1 == if taken then GoTo(AsUsize(ReadParam(m.mem, op.target))) else Increase(3)
  {
  }

  /** A negative condition makes neither jump go anywhere. */
  lemma NegativeConditionFallsThrough(m: Machine, op: Op)
    requires ParseOp(m.mem, m.ip) == Ok(op) && (op.JumpIfTrue? || op.JumpIfFalse?)
    requires ReadParam(m.mem, op.cond) < 0
    ensures Exec(m) == Ok((m, Increase(3)))
  {
  }

  /** Terminate changes nothing and stops the run. */
  lemma ExecTerminate(m: Machine)
    requires ParseOp(m.mem, m.ip) == Ok(Terminate)
    ensures Exec(m) == Ok((m, Stop))
  {
  }

  /**
   * A jump taken to a negative word wraps to an address of at least 2^63,
   * so the run fails at the next fetch, past the end of any memory shorter
   * than that.
   */
  lemma {:induction false} NegativeJumpTargetFails(m: Machine, op: Op, fuel: nat)
    requires ParseOp(m.mem, m.ip) == Ok(op) && (op.JumpIfTrue? || op.JumpIfFalse?)
    requires if op.JumpIfTrue? then ReadParam(m.mem, op.cond) > 0 else ReadParam(m.mem, op.cond) == 0
    requires ReadParam(m.mem, op.target) < 0
    requires |m.mem| <= USIZE_MODULUS / 2
    requires fuel >= 2
    ensures var address := AsUsize(ReadParam(m.mem, op.target));
      address >= USIZE_MODULUS / 2 &&
      RunSpec(m, fuel) == (m.(ip := address), Failed(ReadOutOfRange(address)))
  {
    var address := AsUsize(ReadParam(m.mem, op.target));
    ExecJump(m, op);
    var next := m.(ip := address);
    RunSpecNext(m, fuel, next);
    ParseOpErrors(next.mem, next.ip);
    RunSpecFailed(next, fuel - 1);
  }

  // ---------------------------------------------------------------------------
  // Whole runs
  // ---------------------------------------------------------------------------

  /**
   * `b` is a later state of `a`: memory of the same length, the output log
   * extended and the input queue consumed from the front.
   */
  ghost predicate Follows(a: Machine, b: Machine)
  {
    |b.mem| == |a.mem| && a.output <= b.output &&
    |b.input| <= |a.input| && b.input == a.input[|a.input| - |b.input|..]
  }

  lemma FollowsTrans(a: Machine, b: Machine, c: Machine)
    requires Follows(a, b) && Follows(b, c)
    ensures Follows(a, c)
  {
    var k := |a.input| - |b.input|;
    assert c.input == b.input[|b.input| - |c.input|..] == a.input[k..][|b.input| - |c.input|..];
  }

  /** A step that does not fail leads to a later state, wherever the pointer goes. */
  lemma StepFollows(m: Machine, ip: nat)
    requires Exec(m).Ok?
    ensures Follows(m, Exec(m).value.0.(ip := ip))
  {
  }

  /**
   * A run never resizes memory, only appends to the output log, and only
   * consumes the input queue from the front.
   */
  lemma {:induction false} RunKeepsShape(m: Machine, fuel: nat)
    ensures Follows(m, RunSpec(m, fuel).0)
    decreases fuel
  {
    if fuel > 0 {
      var e := Exec(m);
      if e.Ok? && !e.value.1.Stop? {
        var next := e.value.0.(ip := Advance(m.ip, e.value.1));
        RunKeepsShape(next, fuel - 1);
        assert RunSpec(m, fuel) == RunSpec(next, fuel - 1) && Follows(m, next) by {
          RunSpecNext(m, fuel, next);
          StepFollows(m, next.ip);
        }
        FollowsTrans(m, next, RunSpec(next, fuel - 1).0);
      } else if e.Ok? {
        RunSpecHalted(m, fuel);
        StepFollows(m, m.ip);
      } else {
        RunSpecFailed(m, fuel);
      }
    }
  }

  /**
   * The run loop over any step function: the same loop as `RunSpec`, with the
   * step taken as a parameter, so that facts about the loop alone are proved
   * without looking inside a step.
   */
  function RunWith(step: Machine -> Result<(Machine, Instruction), Panic>, m: Machine, fuel: nat): (Machine, RunResult)
    decreases fuel
  {
    if fuel == 0 then (m, OutOfFuel)
    else
      match step(m)
      case Err(p) => (m, Failed(p))
      case Ok((next, instr)) =>
        if instr.Stop? then (next, Halted)
        else RunWith(step, next.(ip := Advance(m.ip, instr)), fuel - 1)
  }

  /** `RunSpec` is the loop run with `Exec` as its step. */
  lemma {:induction false} RunSpecIsRunWith(m: Machine, fuel: nat)
    ensures RunSpec(m, fuel) == RunWith(Exec, m, fuel)
    decreases fuel
  {
    if fuel > 0 {
      var e := Exec(m);
      if e.Ok? && !e.value.1.Stop? {
        var next := e.value.0.(ip := Advance(m.ip, e.value.1));
        assert RunSpec(m, fuel) == RunSpec(next, fuel - 1) by {
          RunSpecNext(m, fuel, next);
        }
        RunSpecIsRunWith(next, fuel - 1);
      } else if e.Ok? {
        RunSpecHalted(m, fuel);
      } else {
        RunSpecFailed(m, fuel);
      }
    }
  }

  /** A loop that halts does so in a state where the step stops and leaves the state alone. */
  lemma {:induction false} RunWithHalts(step: Machine -> Result<(Machine, Instruction), Panic>, m: Machine, fuel: nat)
    requires RunWith(step, m, fuel).1 == Halted
    ensures exists s :: step(s).Ok? && step(s).value.1.Stop? && step(s).value.0 == RunWith(step, m, fuel).0
    decreases fuel
  {
    match step(m)
    case Ok((next, instr)) =>
      if instr.Stop? {
        assert step(m).value.0 == RunWith(step, m, fuel).0;
      } else {
        RunWithHalts(step, next.(ip := Advance(m.ip, instr)), fuel - 1);
      }
  }

  /** A loop that has ended within its budget ends the same way with any larger budget. */
  lemma {:induction false} RunWithMoreFuel(step: Machine -> Result<(Machine, Instruction), Panic>, m: Machine, fuel: nat, more: nat)
    requires fuel <= more
    requires RunWith(step, m, fuel).1 != OutOfFuel
    ensures RunWith(step, m, more) == RunWith(step, m, fuel)
    decreases fuel
  {
    match step(m)
    case Err(_) =>
    case Ok((next, instr)) =>
      if !instr.Stop? {
        RunWithMoreFuel(step, next.(ip := Advance(m.ip, instr)), fuel - 1, more - 1);
      }
  }

  /** Only operation 99 stops, and it leaves the machine as it was. */
  lemma StopIsTerminate(m: Machine)
    requires Exec(m).Ok? && Exec(m).value.1.Stop?
    ensures ParseOp(m.mem, m.ip) == Ok(Terminate) && Exec(m).value.0 == m
  {
  }

  /** A run halts only at an operation 99 that is reached, and leaves the state as that step found it. */
  lemma HaltsOnlyAtTerminate(m: Machine, fuel: nat)
    requires RunSpec(m, fuel).1 == Halted
    ensures ParseOp(RunSpec(m, fuel).0.mem, RunSpec(m, fuel).0.ip) == Ok(Terminate)
  {
    RunSpecIsRunWith(m, fuel);
    RunWithHalts(Exec, m, fuel);
    var s :| Exec(s).Ok? && Exec(s).value.1.Stop? && Exec(s).value.0 == RunSpec(m, fuel).0;
    StopIsTerminate(s);
  }

  /** A run that has ended within its budget ends the same way with any larger budget. */
  lemma MoreFuelSameEnd(m: Machine, fuel: nat, more: nat)
    requires fuel <= more
    requires RunSpec(m, fuel).1 != OutOfFuel
    ensures RunSpec(m, more) == RunSpec(m, fuel)
  {
    RunSpecIsRunWith(m, fuel);
    RunSpecIsRunWith(m, more);
    RunWithMoreFuel(Exec, m, fuel, more);
  }
}
