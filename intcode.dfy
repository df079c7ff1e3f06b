/**
 * The Intcode virtual machine: a program's memory is a fixed-length buffer of
 * signed 32-bit words that the program itself may overwrite. Each instruction
 * word is decoded into an operation number and three addressing modes, every
 * parameter is resolved to a literal or a bounds-checked address, and the
 * operation is applied to memory, a FIFO input queue and an append-only
 * output log until operation 99 is reached.
 *
 * Every panic of the original becomes a `Panic` value.
 */
module Intcode {
  import opened Wrappers

  /** A machine word: a signed 32-bit integer. */
  newtype i32 = x: int | -0x8000_0000 <= x < 0x8000_0000

  predicate InWordRange(x: int) { -0x8000_0000 <= x < 0x8000_0000 }

  /** `as usize` of a negative word adds 2^64 (a 64-bit target). */
  const USIZE_MODULUS: int := 0x1_0000_0000_0000_0000

  function AsUsize(v: i32): (u: nat)
    ensures v >= 0 ==> u == v as int
    ensures v < 0 ==> u >= USIZE_MODULUS - 0x8000_0000
  {
    if v >= 0 then v as nat else (v as int + USIZE_MODULUS) as nat
  }

  // ---------------------------------------------------------------------------
  // Decoder
  // ---------------------------------------------------------------------------

  datatype ParamMode = Position | Immediate

  datatype ParamModeError = UnrecognisedMode(mode: int)

  function ModeToInt(m: ParamMode): (d: int)
    ensures d == 0 || d == 1
  {
    match m
    case Position => 0
    case Immediate => 1
  }

  /** Only the digits 0 and 1 name a mode, and naming is the inverse of `ModeToInt`. */
  function ModeFromInt(v: int): (r: Result<ParamMode, ParamModeError>)
    ensures r.Ok? <==> v == 0 || v == 1
    ensures r.Ok? ==> ModeToInt(r.value) == v
    ensures r.Err? ==> r.error == UnrecognisedMode(v)
  {
    if v == 0 then Ok(Position)
    else if v == 1 then Ok(Immediate)
    else Err(UnrecognisedMode(v))
  }

  lemma ModeRoundTrip(m: ParamMode)
    ensures ModeFromInt(ModeToInt(m)) == Ok(m)
  {
  }

  datatype OpCode = OpCode(op: int, arg0: ParamMode, arg1: ParamMode, arg2: ParamMode)

  datatype OpCodeError = InvalidOpcode(value: int) | InvalidParamMode(index: nat, err: ParamModeError)

  const ARG2_MASK: int := 10_000
  const ARG1_MASK: int := 1_000
  const ARG0_MASK: int := 100

  /**
   * The quotient of signed division in the original language: rounded toward
   * zero, where Dafny's `/` rounds toward negative infinity for a negative
   * dividend.
   */
  function TruncDiv(a: int, b: int): (q: int)
    requires b > 0
    ensures a >= 0 ==> q >= 0 && q * b <= a < q * b + b
    ensures a < 0 ==> q <= 0 && a <= q * b < a + b
  {
    if a >= 0 then a / b else -((-a) / b)
  }

  /** The word an opcode is written as: op plus the mode digits in the hundreds, thousands and ten-thousands places. */
  function EncodeOpCode(oc: OpCode): int
  {
    oc.op + ARG0_MASK * ModeToInt(oc.arg0) + ARG1_MASK * ModeToInt(oc.arg1) + ARG2_MASK * ModeToInt(oc.arg2)
  }

  /** A word decodes iff it is non-negative, its mode digits are 0 or 1 and its last two digits are not 00. */
  predicate WellFormedWord(v: int)
  {
    && 0 <= v
    && v % 100 != 0
    && (v / 100) % 10 <= 1
    && (v / 1000) % 10 <= 1
    && v / 10000 <= 1
  }

  /**
   * Decodes an instruction word. The mode digits are checked from arg2 down to
   * arg0, each one subtracted before the next is read, and the remaining value
   * must lie in 1..99. Any operation number in that range is accepted here.
   */
  function DecodeOpCode(v: int): (r: Result<OpCode, OpCodeError>)
    ensures r.Ok? ==> 1 <= r.value.op <= 99 && EncodeOpCode(r.value) == v
  {
    var value := v;
    match ModeFromInt(TruncDiv(value, ARG2_MASK))
    case Err(e) => Err(InvalidParamMode(2, e))
    case Ok(arg2) =>
      var value := value - ARG2_MASK * ModeToInt(arg2);
      match ModeFromInt(TruncDiv(value, ARG1_MASK))
      case Err(e) => Err(InvalidParamMode(1, e))
      case Ok(arg1) =>
        var value := value - ARG1_MASK * ModeToInt(arg1);
        match ModeFromInt(TruncDiv(value, ARG0_MASK))
        case Err(e) => Err(InvalidParamMode(0, e))
        case Ok(arg0) =>
          var value := value - ARG0_MASK * ModeToInt(arg0);
          if value < 100 && value > 0 then Ok(OpCode(value, arg0, arg1, arg2))
          else Err(InvalidOpcode(value))
  }

  /** For a non-negative word, the thousands digit read from the remainder below 10000 is the word's own thousands digit. */
  lemma ThousandsDigit(v: int)
    requires v >= 0
    ensures (v % 10000) / 1000 == (v / 1000) % 10
    ensures v % 10000 - 1000 * ((v % 10000) / 1000) == v % 1000
  {
    var a, b := v / 10000, v % 10000;
    var c, d := b / 1000, b % 1000;
    assert v == 1000 * (10 * a + c) + d;
    assert v / 1000 == 10 * a + c;
    assert v % 1000 == d;
  }

  /** For a non-negative word, the hundreds digit read from the remainder below 1000 is the word's own hundreds digit. */
  lemma HundredsDigit(v: int)
    requires v >= 0
    ensures (v % 1000) / 100 == (v / 100) % 10
    ensures v % 1000 - 100 * ((v % 1000) / 100) == v % 100
  {
    var a, b := v / 1000, v % 1000;
    var c, d := b / 100, b % 100;
    assert v == 100 * (10 * a + c) + d;
    assert v / 100 == 10 * a + c;
    assert v % 100 == d;
  }

  /** Decoding succeeds exactly on the well-formed words. */
  lemma {:induction false} DecodeOkIff(v: int)
    ensures DecodeOpCode(v).Ok? <==> WellFormedWord(v)
  {
    if v < 0 {
      assert !WellFormedWord(v);
      var d2 := TruncDiv(v, ARG2_MASK);
      if d2 == 0 {
        var d1 := TruncDiv(v, ARG1_MASK);
        if d1 == 0 {
          var d0 := TruncDiv(v, ARG0_MASK);
          assert d0 <= 0;
        }
      }
    } else {
      var d2 := v / 10000;
      if d2 <= 1 {
        var v1 := v - 10000 * d2;
        assert v1 == v % 10000;
        ThousandsDigit(v);
        var d1 := v1 / 1000;
        assert d1 == (v / 1000) % 10;
        if d1 <= 1 {
          var v2 := v1 - 1000 * d1;
          assert v2 == v % 1000;
          HundredsDigit(v);
          var d0 := v2 / 100;
          assert d0 == (v / 100) % 10;
          if d0 <= 1 {
            var v3 := v2 - 100 * d0;
            assert v3 == v % 100;
          }
        }
      }
    }
  }

  /** Writing an opcode out and decoding it again gives the opcode back. */
  lemma DecodeEncode(oc: OpCode)
    requires 1 <= oc.op <= 99
    ensures DecodeOpCode(EncodeOpCode(oc)) == Ok(oc)
  {
    var v := EncodeOpCode(oc);
    var d0, d1, d2 := ModeToInt(oc.arg0), ModeToInt(oc.arg1), ModeToInt(oc.arg2);
    assert v == oc.op + 100 * d0 + 1000 * d1 + 10000 * d2;
    assert TruncDiv(v, ARG2_MASK) == d2;
    assert TruncDiv(v - 10000 * d2, ARG1_MASK) == d1;
    assert TruncDiv(v - 10000 * d2 - 1000 * d1, ARG0_MASK) == d0;
  }

  // ---------------------------------------------------------------------------
  // Parameter resolution
  // ---------------------------------------------------------------------------

  /** A resolved parameter: a literal word, or an address already checked against the memory length. */
  datatype Param = PositionArg(address: nat) | ImmediateArg(literal: i32)

  /** Every fatal condition of a run. */
  datatype OpError =
    | UnrecognisedOpCode(op: int)
    | PositionParamOutOfBounds(offset: nat, value: i32)
    | ImmediateTargetParam(index: nat)
    | InvalidOpCode(err: OpCodeError)

  datatype Panic =
    | BadOp(err: OpError)          // a decode or resolution error
    | ReadOutOfRange(pos: nat)     // a fetch past the end of memory
    | InputExhausted               // Input with an empty queue
    | ArithmeticOverflow           // an i32 sum or product out of range

  predicate ParamInBounds(p: Param, len: nat)
  {
    p.PositionArg? ==> p.address < len
  }

  /** Fetching a word fails past the end of memory. */
  function ReadAt(mem: seq<i32>, pos: nat): (r: Result<i32, Panic>)
    ensures r.Ok? <==> pos < |mem|
    ensures r.Ok? ==> r.value == mem[pos]
    ensures r.Err? ==> r.error == ReadOutOfRange(pos)
  {
    if pos < |mem| then Ok(mem[pos]) else Err(ReadOutOfRange(pos))
  }

  /**
   * Resolves the parameter `offset` words after the instruction at `ip`: an
   * Immediate parameter is the raw word, a Position parameter must be a valid
   * address.
   */
  function ParseParam(mem: seq<i32>, ip: nat, offset: nat, mode: ParamMode): (r: Result<Param, Panic>)
    ensures r.Ok? ==> ParamInBounds(r.value, |mem|)
  {
    var address := ip + offset;
    var value :- ReadAt(mem, address);
    match mode
    case Immediate => Ok(ImmediateArg(value))
    case Position =>
      if value < 0 || value as int >= |mem| then Err(BadOp(PositionParamOutOfBounds(offset, value)))
      else Ok(PositionArg(value as nat))
  }

  /**
   * How a parameter resolves: a fetch past the end fails, an Immediate word is
   * taken as it is, and a Position word succeeds exactly when it is an address
   * inside memory, failing otherwise with the offending offset and word.
   */
  lemma ParseParamCases(mem: seq<i32>, ip: nat, offset: nat, mode: ParamMode)
    ensures ip + offset >= |mem| ==> ParseParam(mem, ip, offset, mode) == Err(ReadOutOfRange(ip + offset))
    ensures ip + offset < |mem| && mode == Immediate ==>
      ParseParam(mem, ip, offset, mode) == Ok(ImmediateArg(mem[ip + offset]))
    ensures ip + offset < |mem| && mode == Position && 0 <= mem[ip + offset] as int < |mem| ==>
      ParseParam(mem, ip, offset, mode) == Ok(PositionArg(mem[ip + offset] as nat))
    ensures ip + offset < |mem| && mode == Position && !(0 <= mem[ip + offset] as int < |mem|) ==>
      ParseParam(mem, ip, offset, mode) == Err(BadOp(PositionParamOutOfBounds(offset, mem[ip + offset])))
  {
  }

  /** The value a parameter stands for: the literal, or the word currently at its address. */
  function ReadParam(mem: seq<i32>, p: Param): (v: i32)
    requires ParamInBounds(p, |mem|)
    ensures p.ImmediateArg? ==> v == p.literal
    ensures p.PositionArg? ==> v == mem[p.address]
  {
    match p
    case ImmediateArg(value) => value
    case PositionArg(pos) => mem[pos]
  }

  // ---------------------------------------------------------------------------
  // Operations
  // ---------------------------------------------------------------------------

  datatype Op =
    | Add(left: Param, right: Param, dest: nat)
    | Mul(left: Param, right: Param, dest: nat)
    | Input(dest: nat)
    | Output(src: Param)
    | JumpIfTrue(cond: Param, target: Param)
    | JumpIfFalse(cond: Param, target: Param)
    | LessThan(left: Param, right: Param, dest: nat)
    | Equals(left: Param, right: Param, dest: nat)
    | Terminate

  /** The operation number an Op is decoded from. */
  function OpNumber(op: Op): int
  {
    match op
    case Add(_, _, _) => 1
    case Mul(_, _, _) => 2
    case Input(_) => 3
    case Output(_) => 4
    case JumpIfTrue(_, _) => 5
    case JumpIfFalse(_, _) => 6
    case LessThan(_, _, _) => 7
    case Equals(_, _, _) => 8
    case Terminate => 99
  }

  /** The instruction width: the opcode word plus one word per parameter; Terminate has none. */
  function Size(op: Op): (n: Option<nat>)
    ensures n.None? <==> op.Terminate?
    ensures n.Some? ==> n.value == 1 + |Params(op)|
  {
    match op
    case Add(_, _, _) | Mul(_, _, _) | LessThan(_, _, _) | Equals(_, _, _) => Some(4)
    case JumpIfTrue(_, _) | JumpIfFalse(_, _) => Some(3)
    case Input(_) | Output(_) => Some(2)
    case Terminate => None
  }

  /** The parameters of an operation in order, a write target as a Position parameter. */
  function Params(op: Op): seq<Param>
  {
    match op
    case Add(l, r, d) => [l, r, PositionArg(d)]
    case Mul(l, r, d) => [l, r, PositionArg(d)]
    case Input(d) => [PositionArg(d)]
    case Output(p) => [p]
    case JumpIfTrue(c, t) => [c, t]
    case JumpIfFalse(c, t) => [c, t]
    case LessThan(l, r, d) => [l, r, PositionArg(d)]
    case Equals(l, r, d) => [l, r, PositionArg(d)]
    case Terminate => []
  }

  /** Every address the operation reads or writes is below `len`. */
  predicate OpInBounds(op: Op, len: nat)
  {
    match op
    case Add(l, r, d) => ParamInBounds(l, len) && ParamInBounds(r, len) && d < len
    case Mul(l, r, d) => ParamInBounds(l, len) && ParamInBounds(r, len) && d < len
    case Input(d) => d < len
    case Output(p) => ParamInBounds(p, len)
    case JumpIfTrue(c, t) => ParamInBounds(c, len) && ParamInBounds(t, len)
    case JumpIfFalse(c, t) => ParamInBounds(c, len) && ParamInBounds(t, len)
    case LessThan(l, r, d) => ParamInBounds(l, len) && ParamInBounds(r, len) && d < len
    case Equals(l, r, d) => ParamInBounds(l, len) && ParamInBounds(r, len) && d < len
    case Terminate => true
  }

  /** A write target: resolved like any parameter, but an Immediate one is an error naming its index. */
  function ParseTarget(mem: seq<i32>, ip: nat, offset: nat, mode: ParamMode): (r: Result<nat, Panic>)
    ensures r.Ok? ==> r.value < |mem|
  {
    var p :- ParseParam(mem, ip, offset, mode);
    match p
    case ImmediateArg(_) => Err(BadOp(ImmediateTargetParam(offset)))
    case PositionArg(target) => Ok(target)
  }

  /** A write target in Position mode resolves like a parameter; in Immediate mode it is refused once its word can be fetched. */
  lemma ParseTargetCases(mem: seq<i32>, ip: nat, offset: nat, mode: ParamMode)
    ensures ip + offset < |mem| && mode == Immediate ==>
      ParseTarget(mem, ip, offset, mode) == Err(BadOp(ImmediateTargetParam(offset)))
    ensures mode == Position && ParseParam(mem, ip, offset, mode).Ok? ==>
      ParseTarget(mem, ip, offset, mode) == Ok(ParseParam(mem, ip, offset, mode).value.address)
    ensures ParseParam(mem, ip, offset, mode).Err? ==>
      ParseTarget(mem, ip, offset, mode) == Err(ParseParam(mem, ip, offset, mode).error)
  {
  }

  /**
   * Fetches and decodes the instruction at `ip` and resolves its parameters,
   * left to right. Operation numbers other than 1..8 and 99 are rejected here.
   */
  function ParseOp(mem: seq<i32>, ip: nat): (r: Result<Op, Panic>)
    ensures r.Ok? ==> OpInBounds(r.value, |mem|)
    ensures r.Ok? ==> ip < |mem| && DecodeOpCode(mem[ip] as int).Ok?
                      && OpNumber(r.value) == DecodeOpCode(mem[ip] as int).value.op
  {
    var word :- ReadAt(mem, ip);
    match DecodeOpCode(word as int)
    case Err(e) => Err(BadOp(InvalidOpCode(e)))
    case Ok(opcode) =>
      match opcode.op
      case 99 => Ok(Terminate)
      case 1 =>
        var left :- ParseParam(mem, ip, 1, opcode.arg0);
        var right :- ParseParam(mem, ip, 2, opcode.arg1);
        var target :- ParseTarget(mem, ip, 3, opcode.arg2);
        Ok(Add(left, right, target))
      case 2 =>
        var left :- ParseParam(mem, ip, 1, opcode.arg0);
        var right :- ParseParam(mem, ip, 2, opcode.arg1);
        var target :- ParseTarget(mem, ip, 3, opcode.arg2);
        Ok(Mul(left, right, target))
      case 3 =>
        var target :- ParseTarget(mem, ip, 1, opcode.arg0);
        Ok(Input(target))
      case 4 =>
        var value :- ParseParam(mem, ip, 1, opcode.arg0);
        Ok(Output(value))
      case 5 =>
        var condition :- ParseParam(mem, ip, 1, opcode.arg0);
        var value :- ParseParam(mem, ip, 2, opcode.arg1);
        Ok(JumpIfTrue(condition, value))
      case 6 =>
        var condition :- ParseParam(mem, ip, 1, opcode.arg0);
        var value :- ParseParam(mem, ip, 2, opcode.arg1);
        Ok(JumpIfFalse(condition, value))
      case 7 =>
        var left :- ParseParam(mem, ip, 1, opcode.arg0);
        var right :- ParseParam(mem, ip, 2, opcode.arg1);
        var target :- ParseTarget(mem, ip, 3, opcode.arg2);
        Ok(LessThan(left, right, target))
      case 8 =>
        var left :- ParseParam(mem, ip, 1, opcode.arg0);
        var right :- ParseParam(mem, ip, 2, opcode.arg1);
        var target :- ParseTarget(mem, ip, 3, opcode.arg2);
        Ok(Equals(left, right, target))
      case _ => Err(BadOp(UnrecognisedOpCode(opcode.op)))
  }

  // ---------------------------------------------------------------------------
  // Execution
  // ---------------------------------------------------------------------------

  /** What the run loop does after a step: move on by a width, jump, or stop. */
  datatype Instruction = Increase(n: nat) | GoTo(target: nat) | Stop

  /** The machine state: memory, instruction pointer, pending input and output so far. */
  datatype Machine = Machine(mem: seq<i32>, ip: nat, input: seq<i32>, output: seq<i32>)

  /** Stores a computed value at `dest`, or fails if it does not fit in a word. */
  function Store(m: Machine, dest: nat, value: int): (r: Result<(Machine, Instruction), Panic>)
    requires dest < |m.mem|
  {
    if InWordRange(value) then Ok((m.(mem := m.mem[dest := value as i32]), Increase(4)))
    else Err(ArithmeticOverflow)
  }

  /** Applies a decoded operation whose addresses are in bounds. */
  function Apply(m: Machine, op: Op): (r: Result<(Machine, Instruction), Panic>)
    requires OpInBounds(op, |m.mem|)
    ensures r.Ok? ==> |r.value.0.mem| == |m.mem| && r.value.0.ip == m.ip
    ensures r.Ok? ==> m.output <= r.value.0.output && |r.value.0.output| <= |m.output| + 1
    ensures r.Ok? ==> r.value.0.input == m.input || (m.input != [] && r.value.0.input == m.input[1..])
  {
    match op
    case Add(p0, p1, dest) =>
      Store(m, dest, ReadParam(m.mem, p0) as int + ReadParam(m.mem, p1) as int)
    case Mul(p0, p1, dest) =>
      Store(m, dest, ReadParam(m.mem, p0) as int * ReadParam(m.mem, p1) as int)
    case Input(dest) =>
      if m.input == [] then Err(InputExhausted)
      else Ok((m.(mem := m.mem[dest := m.input[0]], input := m.input[1..]), Increase(Size(op).value)))
    case Output(src) =>
      Ok((m.(output := m.output + [ReadParam(m.mem, src)]), Increase(Size(op).value)))
    case JumpIfTrue(p0, target) =>
      if ReadParam(m.mem, p0) > 0 then Ok((m, GoTo(AsUsize(ReadParam(m.mem, target)))))
      else Ok((m, Increase(Size(op).value)))
    case JumpIfFalse(p0, target) =>
      if ReadParam(m.mem, p0) == 0 then Ok((m, GoTo(AsUsize(ReadParam(m.mem, target)))))
      else Ok((m, Increase(Size(op).value)))
    case LessThan(p0, p1, dest) =>
      Store(m, dest, if ReadParam(m.mem, p0) < ReadParam(m.mem, p1) then 1 else 0)
    case Equals(p0, p1, dest) =>
      Store(m, dest, if ReadParam(m.mem, p0) == ReadParam(m.mem, p1) then 1 else 0)
    case Terminate => Ok((m, Stop))
  }

  /**
   * One step: the new memory, queue and log, and what the pointer does next.
   * The pointer itself is moved by the run loop.
   */
  function Exec(m: Machine): (r: Result<(Machine, Instruction), Panic>)
    ensures r.Ok? ==> |r.value.0.mem| == |m.mem| && r.value.0.ip == m.ip
    ensures r.Ok? ==> m.output <= r.value.0.output && |r.value.0.output| <= |m.output| + 1
    ensures r.Ok? ==> r.value.0.input == m.input || (m.input != [] && r.value.0.input == m.input[1..])
  {
    match ParseOp(m.mem, m.ip)
    case Err(e) => Err(e)
    case Ok(op) => Apply(m, op)
  }

  /** The pointer after a non-stopping step: moved on by the width, or set to the jump target. */
  function Advance(ip: nat, instr: Instruction): nat
    requires !instr.Stop?
  {
    match instr
    case Increase(n) => ip + n
    case GoTo(target) => target
  }

  /** How a run ends: at operation 99, at a fatal error, or still running when the step budget is spent. */
  datatype RunResult = Halted | Failed(panic: Panic) | OutOfFuel

  /**
   * At most `fuel` steps of the run loop. The loop itself has no bound; `fuel`
   * only stands for how far the run is followed.
   */
  function RunSpec(m: Machine, fuel: nat): (Machine, RunResult)
    decreases fuel, 0
  {
    if fuel == 0 then (m, OutOfFuel)
    else RunStep(m, fuel - 1)
  }

  /** A run that takes one step from `m` and then has `fuel` steps left. */
  function RunStep(m: Machine, fuel: nat): (Machine, RunResult)
    decreases fuel, 1
  {
    match Exec(m)
    case Err(p) => (m, Failed(p))
    case Ok((next, instr)) =>
      if instr.Stop? then (next, Halted)
      else RunSpec(next.(ip := Advance(m.ip, instr)), fuel)
  }

  /** The run from `m` followed for `fuel` steps ends as `goal`. */
  ghost predicate Reaches(m: Machine, fuel: nat, goal: (Machine, RunResult))
  {
    RunSpec(m, fuel) == goal
  }

  /** A failing step ends the run with that failure, the machine untouched. */
  lemma RunSpecFailed(m: Machine, fuel: nat)
    requires fuel > 0 && Exec(m).Err?
    ensures RunSpec(m, fuel) == (m, Failed(Exec(m).error))
  {
  }

  /** A stopping step ends the run as halted, in the machine that step produced. */
  lemma RunSpecHalted(m: Machine, fuel: nat)
    requires fuel > 0 && Exec(m).Ok? && Exec(m).value.1.Stop?
    ensures RunSpec(m, fuel) == (Exec(m).value.0, Halted)
  {
  }

  /** A step that neither fails nor stops hands the rest of the run to the machine it produces. */
  lemma RunSpecNext(m: Machine, fuel: nat, next: Machine)
    requires fuel > 0 && Exec(m).Ok? && !Exec(m).value.1.Stop?
    requires next == Exec(m).value.0.(ip := Advance(m.ip, Exec(m).value.1))
    ensures RunSpec(m, fuel) == RunSpec(next, fuel - 1)
  {
  }

  // ---------------------------------------------------------------------------
  // The program object
  // ---------------------------------------------------------------------------

  /**
   * A program running over a memory buffer it borrows from the caller: every
   * write lands in the caller's array, which keeps its length.
   */
  class Program {
    var memory: array<i32>
    var nextOp: nat
    var input: seq<i32>
    var output: seq<i32>

    ghost function State(): Machine
      reads this, memory
    {
      Machine(memory[..], nextOp, input, output)
    }

    constructor (memory: array<i32>)
      ensures this.memory == memory
      ensures State() == Machine(memory[..], 0, [], [])
    {
      this.memory := memory;
      nextOp := 0;
      input := [];
      output := [];
    }

    /** Queues one input value behind those already queued. */
    method AddInputValue(value: i32)
      modifies this
      ensures memory == old(memory)
      ensures State() == old(State()).(input := old(input) + [value])
    {
      input := input + [value];
    }

    /** Queues the values in order behind those already queued. */
    method AddInput(values: seq<i32>)
      modifies this
      ensures memory == old(memory)
      ensures State() == old(State()).(input := old(input) + values)
    {
      var i := 0;
      while i < |values|
        invariant 0 <= i <= |values|
        invariant memory == old(memory)
        invariant State() == old(State()).(input := old(input) + values[..i])
      {
        input := input + [values[i]];
        i := i + 1;
      }
    }

    /** The output log so far, readable at any time. */
    function Output(): (log: seq<i32>)
      reads this
      ensures log == State().output
    {
      output
    }

    /**
     * Executes the instruction at the pointer in place; on failure nothing
     * has changed. The pointer is left for `Run` to move.
     */
    method Step(ghost m: Machine) returns (r: Result<Instruction, Panic>)
      requires m == State()
      modifies this, memory
      ensures memory == old(memory)
      ensures Exec(m) == if r.Ok? then Ok((State(), r.value)) else Err(r.error)
      ensures r.Err? ==> State() == m
    {
      var op :- ParseOp(memory[..], nextOp);
      assert Exec(m) == Apply(m, op);
      match op {
        case Add(p0, p1, dest) =>
          var left := ReadParam(memory[..], p0);
          var right := ReadParam(memory[..], p1);
          var sum := left as int + right as int;
          if !InWordRange(sum) {
            return Err(ArithmeticOverflow);
          }
          memory[dest] := sum as i32;
          r := Ok(Increase(Size(op).value));
        case Mul(p0, p1, dest) =>
          var left := ReadParam(memory[..], p0);
          var right := ReadParam(memory[..], p1);
          var product := left as int * right as int;
          if !InWordRange(product) {
            return Err(ArithmeticOverflow);
          }
          memory[dest] := product as i32;
          r := Ok(Increase(Size(op).value));
        case Input(dest) =>
          if input == [] {
            return Err(InputExhausted);
          }
          memory[dest] := input[0];
          input := input[1..];
          r := Ok(Increase(Size(op).value));
        case Output(src) =>
          var value := ReadParam(memory[..], src);
          output := output + [value];
          r := Ok(Increase(Size(op).value));
        case JumpIfTrue(p0, target) =>
          if ReadParam(memory[..], p0) > 0 {
            r := Ok(GoTo(AsUsize(ReadParam(memory[..], target))));
          } else {
            r := Ok(Increase(Size(op).value));
          }
        case JumpIfFalse(p0, target) =>
          if ReadParam(memory[..], p0) == 0 {
            r := Ok(GoTo(AsUsize(ReadParam(memory[..], target))));
          } else {
            r := Ok(Increase(Size(op).value));
          }
        case LessThan(p0, p1, dest) =>
          var left := ReadParam(memory[..], p0);
          var right := ReadParam(memory[..], p1);
          memory[dest] := if left < right then 1 else 0;
          r := Ok(Increase(Size(op).value));
        case Equals(p0, p1, dest) =>
          var left := ReadParam(memory[..], p0);
          var right := ReadParam(memory[..], p1);
          memory[dest] := if left == right then 1 else 0;
          r := Ok(Increase(Size(op).value));
        case Terminate =>
          r := Ok(Stop);
      }
    }

    /**
     * One turn of the run loop: a step, then either the end of the run or a
     * pointer move. `goal` is the outcome of the run still to go.
     */
    method Turn(ghost m: Machine, ghost fuel: nat, ghost goal: (Machine, RunResult))
      returns (done: Option<RunResult>, ghost next: Machine)
      requires fuel > 0 && Reaches(m, fuel, goal)
      requires m.mem == memory[..] && m.ip == nextOp && m.input == input && m.output == output
      modifies this, memory
      ensures memory == old(memory)
      ensures next.mem == memory[..] && next.ip == nextOp && next.input == input && next.output == output
      ensures done.Some? ==> goal == (next, done.value)
      ensures done.None? ==> Reaches(next, fuel - 1, goal)
    {
      var step := Step(m);
      if step.Err? {
        RunSpecFailed(m, fuel);
        return Some(Failed(step.error)), m;
      }
      if step.value.Stop? {
        RunSpecHalted(m, fuel);
        return Some(Halted), Exec(m).value.0;
      }
      next := Exec(m).value.0.(ip := Advance(m.ip, step.value));
      RunSpecNext(m, fuel, next);
      nextOp := Advance(nextOp, step.value);
      done := None;
    }

    /**
     * The run loop, followed for at most `fuel` steps: it stops at operation
     * 99 or at the first failure, and otherwise moves the pointer as each
     * step says.
     */
    method Run(fuel: nat) returns (r: RunResult)
      modifies this, memory
      ensures memory == old(memory)
      ensures (State(), r) == RunSpec(old(State()), fuel)
    {
      var budget := fuel;
      ghost var cur := State();
      ghost var goal := RunSpec(cur, fuel);
      while true
        invariant memory == old(memory)
        invariant cur.mem == memory[..] && cur.ip == nextOp && cur.input == input && cur.output == output
        invariant Reaches(cur, budget, goal)
        decreases budget
      {
        if budget == 0 {
          return OutOfFuel;
        }
        var done;
        done, cur := Turn(cur, budget, goal);
        if done.Some? {
          return done.value;
        }
        budget := budget - 1;
      }
    }
  }
}
