/** The Intcode machine's own example programs, run on the specification. */
module IntcodeExamples {
  import opened Wrappers
  import opened Intcode

  /** A fresh machine: the program as memory, the pointer at 0 and an empty log. */
  function Load(program: seq<i32>, input: seq<i32>): (m: Machine)
    ensures m.mem == program && m.ip == 0 && m.input == input && m.output == []
  {
    Machine(program, 0, input, [])
  }

  /** A step that moves on to `m1`, followed by a step that stops there, halts in `m1`. */
  lemma HaltsAfterOneStep(m0: Machine, m1: Machine)
    requires Exec(m0).Ok? && !Exec(m0).value.1.Stop?
    requires Exec(m0).value.0.(ip := Advance(m0.ip, Exec(m0).value.1)) == m1
    requires Exec(m1) == Ok((m1, Stop))
    ensures RunSpec(m0, 2) == (m1, Halted)
  {
    RunSpecNext(m0, 2, m1);
    RunSpecHalted(m1, 1);
  }

  /** A machine pointing at a 99 stops there. */
  lemma StopsAt99(m: Machine)
    requires m.ip < |m.mem| && m.mem[m.ip] == 99
    ensures Exec(m) == Ok((m, Stop))
  {
    assert DecodeOpCode(99) == Ok(OpCode(99, Position, Position, Position));
  }

  lemma AddStep()
    ensures Exec(Load([1101, 2, 3, 3, 99], [])) == Ok((Machine([1101, 2, 3, 5, 99], 0, [], []), Increase(4)))
  {
    var m0 := Load([1101, 2, 3, 3, 99], []);
    assert DecodeOpCode(1101) == Ok(OpCode(1, Immediate, Immediate, Position));
    assert ParseOp(m0.mem, 0) == Ok(Add(ImmediateArg(2), ImmediateArg(3), 3));
    assert m0.mem[3 := 5] == [1101, 2, 3, 5, 99];
  }

  lemma MulStep()
    ensures Exec(Load([1102, 2, 3, 3, 99], [])) == Ok((Machine([1102, 2, 3, 6, 99], 0, [], []), Increase(4)))
  {
    var m0 := Load([1102, 2, 3, 3, 99], []);
    assert DecodeOpCode(1102) == Ok(OpCode(2, Immediate, Immediate, Position));
    assert ParseOp(m0.mem, 0) == Ok(Mul(ImmediateArg(2), ImmediateArg(3), 3));
    assert m0.mem[3 := 6] == [1102, 2, 3, 6, 99];
  }

  lemma InputStep()
    ensures Exec(Load([3, 1, 99], [1024])) == Ok((Machine([3, 1024, 99], 0, [], []), Increase(2)))
  {
    var m0 := Load([3, 1, 99], [1024]);
    assert DecodeOpCode(3) == Ok(OpCode(3, Position, Position, Position));
    assert ParseOp(m0.mem, 0) == Ok(Input(1));
    assert m0.mem[1 := 1024] == [3, 1024, 99];
  }

  lemma OutputStep()
    ensures Exec(Load([104, 1024, 99], [])) == Ok((Machine([104, 1024, 99], 0, [], [1024]), Increase(2)))
  {
    var m0 := Load([104, 1024, 99], []);
    assert DecodeOpCode(104) == Ok(OpCode(4, Immediate, Position, Position));
    assert ParseOp(m0.mem, 0) == Ok(Output(ImmediateArg(1024)));
    assert m0.output + [1024] == [1024];
  }

  lemma JumpTrueStep()
    ensures Exec(Load([1105, 1, 5, 104, 1, 99], [])) == Ok((Machine([1105, 1, 5, 104, 1, 99], 0, [], []), GoTo(5)))
  {
    var m0 := Load([1105, 1, 5, 104, 1, 99], []);
    assert DecodeOpCode(1105) == Ok(OpCode(5, Immediate, Immediate, Position));
    assert ParseOp(m0.mem, 0) == Ok(JumpIfTrue(ImmediateArg(1), ImmediateArg(5)));
  }

  lemma JumpFalseStep()
    ensures Exec(Load([1106, 0, 5, 104, 1, 99], [])) == Ok((Machine([1106, 0, 5, 104, 1, 99], 0, [], []), GoTo(5)))
  {
    var m0 := Load([1106, 0, 5, 104, 1, 99], []);
    assert DecodeOpCode(1106) == Ok(OpCode(6, Immediate, Immediate, Position));
    assert ParseOp(m0.mem, 0) == Ok(JumpIfFalse(ImmediateArg(0), ImmediateArg(5)));
  }

  lemma LessThanTrueStep()
    ensures Exec(Load([1107, 0, 1, 1, 99], [])) == Ok((Machine([1107, 1, 1, 1, 99], 0, [], []), Increase(4)))
  {
    var m0 := Load([1107, 0, 1, 1, 99], []);
    assert DecodeOpCode(1107) == Ok(OpCode(7, Immediate, Immediate, Position));
    assert ParseOp(m0.mem, 0) == Ok(LessThan(ImmediateArg(0), ImmediateArg(1), 1));
    assert m0.mem[1 := 1] == [1107, 1, 1, 1, 99];
  }

  lemma LessThanFalseStep()
    ensures Exec(Load([1107, 1, 1, 1, 99], [])) == Ok((Machine([1107, 0, 1, 1, 99], 0, [], []), Increase(4)))
  {
    var m0 := Load([1107, 1, 1, 1, 99], []);
    assert DecodeOpCode(1107) == Ok(OpCode(7, Immediate, Immediate, Position));
    assert ParseOp(m0.mem, 0) == Ok(LessThan(ImmediateArg(1), ImmediateArg(1), 1));
    assert m0.mem[1 := 0] == [1107, 0, 1, 1, 99];
  }

  lemma EqualsTrueStep()
    ensures Exec(Load([1108, 0, 0, 1, 99], [])) == Ok((Machine([1108, 1, 0, 1, 99], 0, [], []), Increase(4)))
  {
    var m0 := Load([1108, 0, 0, 1, 99], []);
    assert DecodeOpCode(1108) == Ok(OpCode(8, Immediate, Immediate, Position));
    assert ParseOp(m0.mem, 0) == Ok(Equals(ImmediateArg(0), ImmediateArg(0), 1));
    assert m0.mem[1 := 1] == [1108, 1, 0, 1, 99];
  }

  lemma EqualsFalseStep()
    ensures Exec(Load([1108, 1, 0, 1, 99], [])) == Ok((Machine([1108, 0, 0, 1, 99], 0, [], []), Increase(4)))
  {
    var m0 := Load([1108, 1, 0, 1, 99], []);
    assert DecodeOpCode(1108) == Ok(OpCode(8, Immediate, Immediate, Position));
    assert ParseOp(m0.mem, 0) == Ok(Equals(ImmediateArg(1), ImmediateArg(0), 1));
    assert m0.mem[1 := 0] == [1108, 0, 0, 1, 99];
  }

  lemma AddExample()
    ensures RunSpec(Load([1101, 2, 3, 3, 99], []), 2) == (Machine([1101, 2, 3, 5, 99], 4, [], []), Halted)
  {
    AddStep();
    StopsAt99(Machine([1101, 2, 3, 5, 99], 4, [], []));
    HaltsAfterOneStep(Load([1101, 2, 3, 3, 99], []), Machine([1101, 2, 3, 5, 99], 4, [], []));
  }

  lemma MulExample()
    ensures RunSpec(Load([1102, 2, 3, 3, 99], []), 2) == (Machine([1102, 2, 3, 6, 99], 4, [], []), Halted)
  {
    MulStep();
    StopsAt99(Machine([1102, 2, 3, 6, 99], 4, [], []));
    HaltsAfterOneStep(Load([1102, 2, 3, 3, 99], []), Machine([1102, 2, 3, 6, 99], 4, [], []));
  }

  lemma InputExample()
    ensures RunSpec(Load([3, 1, 99], [1024]), 2) == (Machine([3, 1024, 99], 2, [], []), Halted)
  {
    InputStep();
    StopsAt99(Machine([3, 1024, 99], 2, [], []));
    HaltsAfterOneStep(Load([3, 1, 99], [1024]), Machine([3, 1024, 99], 2, [], []));
  }

  lemma OutputExample()
    ensures RunSpec(Load([104, 1024, 99], []), 2) == (Machine([104, 1024, 99], 2, [], [1024]), Halted)
  {
    OutputStep();
    StopsAt99(Machine([104, 1024, 99], 2, [], [1024]));
    HaltsAfterOneStep(Load([104, 1024, 99], []), Machine([104, 1024, 99], 2, [], [1024]));
  }

  /** Both jumps skip the Output instruction, so the log stays empty. */
  lemma JumpExamples()
    ensures RunSpec(Load([1105, 1, 5, 104, 1, 99], []), 2) == (Machine([1105, 1, 5, 104, 1, 99], 5, [], []), Halted)
    ensures RunSpec(Load([1106, 0, 5, 104, 1, 99], []), 2) == (Machine([1106, 0, 5, 104, 1, 99], 5, [], []), Halted)
  {
    JumpTrueStep();
    StopsAt99(Machine([1105, 1, 5, 104, 1, 99], 5, [], []));
    HaltsAfterOneStep(Load([1105, 1, 5, 104, 1, 99], []), Machine([1105, 1, 5, 104, 1, 99], 5, [], []));
    JumpFalseStep();
    StopsAt99(Machine([1106, 0, 5, 104, 1, 99], 5, [], []));
    HaltsAfterOneStep(Load([1106, 0, 5, 104, 1, 99], []), Machine([1106, 0, 5, 104, 1, 99], 5, [], []));
  }

  /** Operation 7 stores 1 into cell 1 when 0 < 1 and 0 when 1 < 1 fails. */
  lemma LessThanExamples()
    ensures RunSpec(Load([1107, 0, 1, 1, 99], []), 2) == (Machine([1107, 1, 1, 1, 99], 4, [], []), Halted)
    ensures RunSpec(Load([1107, 1, 1, 1, 99], []), 2) == (Machine([1107, 0, 1, 1, 99], 4, [], []), Halted)
  {
    LessThanTrueStep();
    StopsAt99(Machine([1107, 1, 1, 1, 99], 4, [], []));
    HaltsAfterOneStep(Load([1107, 0, 1, 1, 99], []), Machine([1107, 1, 1, 1, 99], 4, [], []));
    LessThanFalseStep();
    StopsAt99(Machine([1107, 0, 1, 1, 99], 4, [], []));
    HaltsAfterOneStep(Load([1107, 1, 1, 1, 99], []), Machine([1107, 0, 1, 1, 99], 4, [], []));
  }

  /** Operation 8 stores 1 into cell 1 when 0 == 0 and 0 when 1 == 0 fails. */
  lemma EqualsExamples()
    ensures RunSpec(Load([1108, 0, 0, 1, 99], []), 2) == (Machine([1108, 1, 0, 1, 99], 4, [], []), Halted)
    ensures RunSpec(Load([1108, 1, 0, 1, 99], []), 2) == (Machine([1108, 0, 0, 1, 99], 4, [], []), Halted)
  {
    EqualsTrueStep();
    StopsAt99(Machine([1108, 1, 0, 1, 99], 4, [], []));
    HaltsAfterOneStep(Load([1108, 0, 0, 1, 99], []), Machine([1108, 1, 0, 1, 99], 4, [], []));
    EqualsFalseStep();
    StopsAt99(Machine([1108, 0, 0, 1, 99], 4, [], []));
    HaltsAfterOneStep(Load([1108, 1, 0, 1, 99], []), Machine([1108, 0, 0, 1, 99], 4, [], []));
  }
}
