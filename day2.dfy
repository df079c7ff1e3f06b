/**
 * The first, smaller Intcode machine: unsigned words, position mode only,
 * and only the operations 1 (add), 2 (multiply) and 99 (halt). The run loop
 * works in place on the caller's buffer; the noun/verb search runs a fresh
 * copy of the program for each candidate pair.
 */
module Day2 {
  import opened Wrappers

  /** A machine word: the platform's unsigned 64-bit integer. */
  newtype usize = x: int | 0 <= x < 0x1_0000_0000_0000_0000

  predicate InUsizeRange(x: int) { 0 <= x < 0x1_0000_0000_0000_0000 }

  /** Every way a run of this machine panics. */
  datatype Fault =
    | ReadOutOfRange(pos: nat)     // a read past the end of memory
    | WriteOutOfRange(pos: nat)    // a store past the end of memory
    | UnknownOpcode(op: usize)     // an operation other than 1, 2 and 99
    | Overflow                     // a sum or product beyond the word width

  datatype Machine = Machine(mem: seq<usize>, ip: nat)

  /** A read of one word, failing past the end of memory. */
  function Read(mem: seq<usize>, pos: nat): (r: Result<usize, Fault>)
    ensures r.Ok? <==> pos < |mem|
    ensures r.Ok? ==> r.value == mem[pos]
    ensures r.Err? ==> r.error == ReadOutOfRange(pos)
  {
    if pos < |mem| then Ok(mem[pos]) else Err(ReadOutOfRange(pos))
  }

  /** The three words after the opcode, fetched in order: two operand addresses and the target address. */
  function Operands(m: Machine): (r: Result<(usize, usize, usize), Fault>)
    ensures r.Ok? <==> m.ip + 3 < |m.mem|
    ensures r.Ok? ==> r.value == (m.mem[m.ip + 1], m.mem[m.ip + 2], m.mem[m.ip + 3])
  {
    var a0 :- Read(m.mem, m.ip + 1);
    var a1 :- Read(m.mem, m.ip + 2);
    var target :- Read(m.mem, m.ip + 3);
    Ok((a0, a1, target))
  }

  /**
   * One step: None at operation 99; otherwise the machine after an add or a
   * multiply, with the pointer moved on by four.
   */
  function Exec(m: Machine): (r: Result<Option<Machine>, Fault>)
    ensures r.Ok? && r.value.Some? ==> |r.value.value.mem| == |m.mem| && r.value.value.ip == m.ip + 4
  {
    var instruction :- Read(m.mem, m.ip);
    if instruction == 99 then Ok(None)
    else if instruction == 1 || instruction == 2 then
      var operands :- Operands(m);
      var (p0, p1, target) := operands;
      var a0 :- Read(m.mem, p0 as nat);
      var a1 :- Read(m.mem, p1 as nat);
      var result := if instruction == 1 then a0 as int + a1 as int else a0 as int * a1 as int;
      if !InUsizeRange(result) then Err(Overflow)
      else if target as int >= |m.mem| then Err(WriteOutOfRange(target as nat))
      else Ok(Some(Machine(m.mem[target := result as usize], m.ip + 4)))
    else Err(UnknownOpcode(instruction))
  }

  datatype RunResult = Halted | Failed(fault: Fault) | OutOfFuel

  /** The run loop followed for at most `fuel` steps; the loop itself has no bound. */
  function RunSpec(m: Machine, fuel: nat): (r: (Machine, RunResult))
    ensures |r.0.mem| == |m.mem|
    decreases fuel, 0
  {
    if fuel == 0 then (m, OutOfFuel)
    else RunStep(m, fuel - 1)
  }

  /** A run that takes one step from `m` and then has `fuel` steps left. */
  function RunStep(m: Machine, fuel: nat): (r: (Machine, RunResult))
    ensures |r.0.mem| == |m.mem|
    decreases fuel, 1
  {
    match Exec(m)
    case Err(f) => (m, Failed(f))
    case Ok(None) => (m, Halted)
    case Ok(Some(next)) => RunSpec(next, fuel)
  }

  /** The run from `m` followed for `fuel` steps ends as `goal`. */
  ghost predicate Reaches(m: Machine, fuel: nat, goal: (Machine, RunResult))
  {
    RunSpec(m, fuel) == goal
  }

  /** A failing step ends the run with that failure, the machine untouched. */
  lemma RunSpecFailed(m: Machine, fuel: nat)
    requires fuel > 0 && Exec(m).Err?
    ensures RunSpec(m, fuel) == (m, Failed(Exec(m).error))
  {
  }

  /** Operation 99 ends the run as halted, the machine untouched. */
  lemma RunSpecHalted(m: Machine, fuel: nat)
    requires fuel > 0 && Exec(m) == Ok(None)
    ensures RunSpec(m, fuel) == (m, Halted)
  {
  }

  /** A step that goes on hands the rest of the run to the machine it produces. */
  lemma RunSpecNext(m: Machine, fuel: nat)
    requires fuel > 0 && Exec(m).Ok? && Exec(m).value.Some?
    ensures RunSpec(m, fuel) == RunSpec(Exec(m).value.value, fuel - 1)
  {
  }

  // ---------------------------------------------------------------------------
  // Properties of a step
  // ---------------------------------------------------------------------------

  /** `n` is `m` with the word at `target` replaced by `value`, every other word kept. */
  predicate WritesOnly(m: Machine, n: Machine, target: nat, value: int)
  {
    target < |m.mem| && |n.mem| == |m.mem| && n.mem[target] as int == value &&
    forall i :: 0 <= i < |m.mem| && i != target ==> n.mem[i] == m.mem[i]
  }

  /**
   * Operations 1 and 2 read both operands through their addresses and store
   * the sum, respectively the product, at the address in the third word,
   * changing no other word; the pointer moves on by four.
   */
  lemma {:induction false} ExecArithmetic(m: Machine)
    requires m.ip + 3 < |m.mem| && (m.mem[m.ip] == 1 || m.mem[m.ip] == 2)
    requires m.mem[m.ip + 1] as int < |m.mem| && m.mem[m.ip + 2] as int < |m.mem|
    requires m.mem[m.ip + 3] as int < |m.mem|
    ensures var a0, a1 := m.mem[m.mem[m.ip + 1]] as int, m.mem[m.mem[m.ip + 2]] as int;
      var result := if m.mem[m.ip] == 1 then a0 + a1 else a0 * a1;
      if InUsizeRange(result) then
        Exec(m).Ok? && Exec(m).value.Some? && Exec(m).value.value.ip == m.ip + 4 &&
        WritesOnly(m, Exec(m).value.value, m.mem[m.ip + 3] as nat, result)
      else Exec(m) == Err(Overflow)
  {
    assert Operands(m) == Ok((m.mem[m.ip + 1], m.mem[m.ip + 2], m.mem[m.ip + 3]));
  }

  /** A step stops the run exactly at operation 99. */
  lemma ExecHalts(m: Machine)
    ensures Exec(m) == Ok(None) <==> m.ip < |m.mem| && m.mem[m.ip] == 99
  {
  }

  /**
   * A pointer past the end and any operation other than 1, 2 and 99 are
   * failures; so, for an add or a multiply, are a missing operand word (the
   * first position past the end is reported), an operand address past the
   * end, and a target address past the end once the result fits in a word.
   */
  lemma ExecFaults(m: Machine)
    ensures m.ip >= |m.mem| ==> Exec(m) == Err(ReadOutOfRange(m.ip))
    ensures m.ip < |m.mem| && !(m.mem[m.ip] in {1, 2, 99}) ==> Exec(m) == Err(UnknownOpcode(m.mem[m.ip]))
    ensures m.ip < |m.mem| && m.mem[m.ip] in {1, 2} && m.ip + 3 >= |m.mem| ==>
      Exec(m) == Err(ReadOutOfRange(|m.mem|))
    ensures m.ip + 3 < |m.mem| && m.mem[m.ip] in {1, 2} && m.mem[m.ip + 1] as int >= |m.mem| ==>
      Exec(m) == Err(ReadOutOfRange(m.mem[m.ip + 1] as nat))
    ensures (m.ip + 3 < |m.mem| && m.mem[m.ip] in {1, 2} && m.mem[m.ip + 1] as int < |m.mem| &&
             m.mem[m.ip + 2] as int >= |m.mem|) ==>
      Exec(m) == Err(ReadOutOfRange(m.mem[m.ip + 2] as nat))
    ensures (m.ip + 3 < |m.mem| && m.mem[m.ip] in {1, 2} && m.mem[m.ip + 1] as int < |m.mem| &&
             m.mem[m.ip + 2] as int < |m.mem| && m.mem[m.ip + 3] as int >= |m.mem|) ==>
      var a0, a1 := m.mem[m.mem[m.ip + 1]] as int, m.mem[m.mem[m.ip + 2]] as int;
      var result := if m.mem[m.ip] == 1 then a0 + a1 else a0 * a1;
      Exec(m) == if InUsizeRange(result) then Err(WriteOutOfRange(m.mem[m.ip + 3] as nat)) else Err(Overflow)
  {
  }

  /** A step that goes on changes at most one word. */
  lemma {:induction false} ExecChangesOneWord(m: Machine)
    requires Exec(m).Ok? && Exec(m).value.Some?
    ensures exists target :: 0 <= target < |m.mem| &&
                            WritesOnly(m, Exec(m).value.value, target, Exec(m).value.value.mem[target] as int)
  {
    var target := m.mem[m.ip + 3] as nat;
    assert WritesOnly(m, Exec(m).value.value, target, Exec(m).value.value.mem[target] as int);
  }

  // ---------------------------------------------------------------------------
  // The program object
  // ---------------------------------------------------------------------------

  /** A program running over a memory buffer that it owns and hands back at the end. */
  class Program {
    var memory: array<usize>
    var nextInstruction: nat

    ghost function State(): Machine
      reads this, memory
    {
      Machine(memory[..], nextInstruction)
    }

    constructor (memory: array<usize>)
      ensures this.memory == memory
      ensures State() == Machine(memory[..], 0)
    {
      this.memory := memory;
      nextInstruction := 0;
    }

    /** The memory, as the run has left it. */
    function Memory(): (mem: seq<usize>)
      reads this, memory
      ensures mem == State().mem
    {
      memory[..]
    }

    /**
     * Executes the instruction at the pointer in place: the opcode executed,
     * or None at operation 99. On failure nothing has changed.
     */
    method Step(ghost m: Machine) returns (r: Result<Option<usize>, Fault>)
      requires m == State()
      modifies this, memory
      ensures memory == old(memory)
      ensures Exec(m) == if r.Err? then Err(r.error) else if r.value.None? then Ok(None) else Ok(Some(State()))
      ensures r.Ok? && r.value.None? ==> State() == m
      ensures r.Err? ==> State() == m
    {
      var instruction :- Read(memory[..], nextInstruction);
      if instruction == 99 {
        return Ok(None);
      }
      if instruction != 1 && instruction != 2 {
        return Err(UnknownOpcode(instruction));
      }
      var operands :- Operands(Machine(memory[..], nextInstruction));
      var (p0, p1, target) := operands;
      var a0 :- Read(memory[..], p0 as nat);
      var a1 :- Read(memory[..], p1 as nat);
      var result := if instruction == 1 then a0 as int + a1 as int else a0 as int * a1 as int;
      if !InUsizeRange(result) {
        return Err(Overflow);
      }
      if target as int >= memory.Length {
        return Err(WriteOutOfRange(target as nat));
      }
      memory[target] := result as usize;
      nextInstruction := nextInstruction + 4;
      r := Ok(Some(instruction));
    }

    /** One turn of the run loop. `goal` is the outcome of the run still to go. */
    method Turn(ghost m: Machine, ghost fuel: nat, ghost goal: (Machine, RunResult))
      returns (done: Option<RunResult>, ghost next: Machine)
      requires fuel > 0 && Reaches(m, fuel, goal)
      requires m.mem == memory[..] && m.ip == nextInstruction
      modifies this, memory
      ensures memory == old(memory)
      ensures next.mem == memory[..] && next.ip == nextInstruction
      ensures done.Some? ==> goal == (next, done.value)
      ensures done.None? ==> Reaches(next, fuel - 1, goal)
    {
      var step := Step(m);
      if step.Err? {
        RunSpecFailed(m, fuel);
        return Some(Failed(step.error)), m;
      }
      if step.value.None? {
        RunSpecHalted(m, fuel);
        return Some(Halted), m;
      }
      RunSpecNext(m, fuel);
      return None, Exec(m).value.value;
    }

    /** Steps until operation 99 or the first failure, for at most `fuel` steps. */
    method Run(fuel: nat) returns (r: RunResult)
      modifies this, memory
      ensures memory == old(memory)
      ensures (State(), r) == RunSpec(old(State()), fuel)
    {
      var budget := fuel;
      ghost var cur := State();
      ghost var goal := RunSpec(cur, fuel);
      while true
        invariant memory == old(memory)
        invariant cur.mem == memory[..] && cur.ip == nextInstruction
        invariant Reaches(cur, budget, goal)
        decreases budget
      {
        if budget == 0 {
          return OutOfFuel;
        }
        var done;
        done, cur := Turn(cur, budget, goal);
        if done.Some? {
          return done.value;
        }
        budget := budget - 1;
      }
    }
  }

  // ---------------------------------------------------------------------------
  // The noun/verb search
  // ---------------------------------------------------------------------------

  /** Candidate nouns and verbs both range over 0..98. */
  const CANDIDATES: nat := 99

  /** Why the search stops without an answer: a patch past the end, or a run that panics or does not halt. */
  datatype SearchError = PatchOutOfRange(pos: nat) | RunFailed(fault: Fault) | Diverged

  /** The program with the noun at address 1 and the verb at address 2. */
  function Patched(program: seq<usize>, noun: usize, verb: usize): (p: seq<usize>)
    requires |program| >= 3
    ensures |p| == |program| && p[1] == noun && p[2] == verb
    ensures forall i :: 0 <= i < |program| && i != 1 && i != 2 ==> p[i] == program[i]
  {
    program[1 := noun][2 := verb]
  }

  /** Whether running the patched program leaves `expected` at address 0, or why the run did not tell. */
  function Attempt(program: seq<usize>, expected: usize, fuel: nat, noun: nat, verb: nat): Result<bool, SearchError>
    requires |program| >= 3 && noun < CANDIDATES && verb < CANDIDATES
  {
    var (end, result) := RunSpec(Machine(Patched(program, noun as usize, verb as usize), 0), fuel);
    match result
    case Halted => Ok(end.mem[0] == expected)
    case Failed(f) => Err(RunFailed(f))
    case OutOfFuel => Err(Diverged)
  }

  /** The search from position `k` of the row-major order over all pairs, noun first. */
  function SearchFrom(program: seq<usize>, expected: usize, fuel: nat, k: nat): Result<Option<(usize, usize)>, SearchError>
    requires |program| >= 3 && k <= CANDIDATES * CANDIDATES
    decreases CANDIDATES * CANDIDATES - k
  {
    if k == CANDIDATES * CANDIDATES then Ok(None)
    else
      var hit :- Attempt(program, expected, fuel, k / CANDIDATES, k % CANDIDATES);
      if hit then Ok(Some(((k / CANDIDATES) as usize, (k % CANDIDATES) as usize)))
      else SearchFrom(program, expected, fuel, k + 1)
  }

  /** The whole search; the patch of the first candidate fails on a program shorter than three words. */
  function Search(program: seq<usize>, expected: usize, fuel: nat): Result<Option<(usize, usize)>, SearchError>
  {
    if |program| < 2 then Err(PatchOutOfRange(1))
    else if |program| < 3 then Err(PatchOutOfRange(2))
    else SearchFrom(program, expected, fuel, 0)
  }

  /** The search from position `k` ends as `goal`. */
  ghost predicate SearchEnds(program: seq<usize>, expected: usize, fuel: nat, k: nat, goal: Result<Option<(usize, usize)>, SearchError>)
    requires |program| >= 3 && k <= CANDIDATES * CANDIDATES
  {
    SearchFrom(program, expected, fuel, k) == goal
  }

  /** One position of the search: an error or a hit ends it, a miss moves on. */
  lemma SearchFromNext(program: seq<usize>, expected: usize, fuel: nat, noun: nat, verb: nat, goal: Result<Option<(usize, usize)>, SearchError>)
    requires |program| >= 3 && noun < CANDIDATES && verb < CANDIDATES
    requires SearchEnds(program, expected, fuel, Rank(noun, verb), goal)
    ensures var a := Attempt(program, expected, fuel, noun, verb);
      if a.Err? then goal == Err(a.error)
      else if a.value then goal == Ok(Some((noun as usize, verb as usize)))
      else SearchEnds(program, expected, fuel, Rank(noun, verb) + 1, goal)
  {
    RankOrder(noun, verb);
  }

  /** The position of a pair in the row-major order. */
  function Rank(noun: nat, verb: nat): nat
  {
    99 * noun + verb
  }

  lemma RankSplit(k: nat)
    ensures Rank(k / CANDIDATES, k % CANDIDATES) == k
  {
  }

  lemma RankOrder(noun: nat, verb: nat)
    requires verb < CANDIDATES
    ensures Rank(noun, verb) / CANDIDATES == noun && Rank(noun, verb) % CANDIDATES == verb
  {
  }

  /**
   * What the search from `k` returns: the first pair at or after `k` whose
   * run leaves `expected` at address 0, if every earlier run halted without
   * it; None if every run halts and none does; otherwise the error of the
   * first run that does not halt.
   */
  lemma {:induction false} SearchFromMeaning(program: seq<usize>, expected: usize, fuel: nat, k: nat)
    requires |program| >= 3 && k <= CANDIDATES * CANDIDATES
    ensures var r := SearchFrom(program, expected, fuel, k);
      r.Ok? && r.value.Some? ==>
        var (noun, verb) := r.value.value;
        noun < CANDIDATES as usize && verb < CANDIDATES as usize && k <= Rank(noun as nat, verb as nat) &&
        Attempt(program, expected, fuel, noun as nat, verb as nat) == Ok(true) &&
        forall n, v :: 0 <= n < CANDIDATES && 0 <= v < CANDIDATES && k <= Rank(n, v) < Rank(noun as nat, verb as nat) ==>
          Attempt(program, expected, fuel, n, v) == Ok(false)
    ensures var r := SearchFrom(program, expected, fuel, k);
      r == Ok(None) ==>
        forall n, v :: 0 <= n < CANDIDATES && 0 <= v < CANDIDATES && k <= Rank(n, v) ==>
          Attempt(program, expected, fuel, n, v) == Ok(false)
    ensures var r := SearchFrom(program, expected, fuel, k);
      r.Err? ==>
        exists noun, verb :: 0 <= noun < CANDIDATES && 0 <= verb < CANDIDATES && k <= Rank(noun, verb) &&
          Attempt(program, expected, fuel, noun, verb) == Err(r.error) &&
          forall n, v :: 0 <= n < CANDIDATES && 0 <= v < CANDIDATES && k <= Rank(n, v) < Rank(noun, verb) ==>
            Attempt(program, expected, fuel, n, v) == Ok(false)
    decreases CANDIDATES * CANDIDATES - k
  {
    if k < CANDIDATES * CANDIDATES {
      var noun, verb := k / CANDIDATES, k % CANDIDATES;
      RankSplit(k);
      SearchFromMeaning(program, expected, fuel, k + 1);
      forall n, v | 0 <= n < CANDIDATES && 0 <= v < CANDIDATES && Rank(n, v) == k
        ensures n == noun && v == verb
      {
        RankOrder(n, v);
      }
    }
  }

  /** Runs a fresh copy of the program patched with the pair and inspects address 0. */
  method TryPair(program: seq<usize>, expected: usize, fuel: nat, noun: nat, verb: nat) returns (r: Result<bool, SearchError>)
    requires |program| >= 3 && noun < CANDIDATES && verb < CANDIDATES
    ensures r == Attempt(program, expected, fuel, noun, verb)
  {
    var memory := new usize[|program|](i requires 0 <= i < |program| => program[i]);
    memory[1] := noun as usize;
    memory[2] := verb as usize;
    assert memory[..] == Patched(program, noun as usize, verb as usize);
    var machine := new Program(memory);
    var result := machine.Run(fuel);
    match result {
      case Failed(f) => return Err(RunFailed(f));
      case OutOfFuel => return Err(Diverged);
      case Halted => return Ok(memory[0] == expected);
    }
  }

  /**
   * Tries every (noun, verb) pair in row-major order on a fresh copy of the
   * program and returns the first whose run leaves `expected` at address 0.
   * The program itself is a value and is never changed.
   */
  method FindNounVerb(program: seq<usize>, expected: usize, fuel: nat) returns (r: Result<Option<(usize, usize)>, SearchError>)
    ensures r == Search(program, expected, fuel)
  {
    if |program| < 2 {
      return Err(PatchOutOfRange(1));
    }
    if |program| < 3 {
      return Err(PatchOutOfRange(2));
    }
    ghost var goal := Search(program, expected, fuel);
    var noun := 0;
    while noun < CANDIDATES
      invariant noun <= CANDIDATES
      invariant SearchEnds(program, expected, fuel, Rank(noun, 0), goal)
    {
      var verb := 0;
      while verb < CANDIDATES
        invariant verb <= CANDIDATES
        invariant SearchEnds(program, expected, fuel, Rank(noun, verb), goal)
      {
        SearchFromNext(program, expected, fuel, noun, verb, goal);
        var attempt := TryPair(program, expected, fuel, noun, verb);
        if attempt.Err? {
          return Err(attempt.error);
        }
        if attempt.value {
          return Ok(Some((noun as usize, verb as usize)));
        }
        assert Rank(noun, verb) + 1 == Rank(noun, verb + 1);
        verb := verb + 1;
      }
      noun := noun + 1;
    }
    return Ok(None);
  }

  // ---------------------------------------------------------------------------
  // Examples
  // ---------------------------------------------------------------------------

  /** 1 + 1 stored over the opcode. */
  lemma RunExample1()
    ensures RunSpec(Machine([1, 0, 0, 0, 99], 0), 2) == (Machine([2, 0, 0, 0, 99], 4), Halted)
  {
    var m0 := Machine([1, 0, 0, 0, 99], 0);
    var m1 := Machine([2, 0, 0, 0, 99], 4);
    assert m0.mem[0 := 2] == m1.mem;
    assert Exec(m0) == Ok(Some(m1));
    assert Exec(m1) == Ok(None);
  }

  /** 3 * 2 stored at address 3. */
  lemma RunExample2()
    ensures RunSpec(Machine([2, 3, 0, 3, 99], 0), 2) == (Machine([2, 3, 0, 6, 99], 4), Halted)
  {
    var m0 := Machine([2, 3, 0, 3, 99], 0);
    var m1 := Machine([2, 3, 0, 6, 99], 4);
    assert m0.mem[3 := 6] == m1.mem;
    assert Exec(m0) == Ok(Some(m1));
    assert Exec(m1) == Ok(None);
  }

  /** 99 * 99 stored in the word after the halt. */
  lemma RunExample3()
    ensures RunSpec(Machine([2, 4, 4, 5, 99, 0], 0), 2) == (Machine([2, 4, 4, 5, 99, 9801], 4), Halted)
  {
    var m0 := Machine([2, 4, 4, 5, 99, 0], 0);
    var m1 := Machine([2, 4, 4, 5, 99, 9801], 4);
    assert m0.mem[5 := 9801] == m1.mem;
    assert Exec(m0) == Ok(Some(m1));
    assert Exec(m1) == Ok(None);
  }

  /** The first step writes the 2 that turns address 4 from a halt into a multiply. */
  lemma RunExample4()
    ensures RunSpec(Machine([1, 1, 1, 4, 99, 5, 6, 0, 99], 0), 3) == (Machine([30, 1, 1, 4, 2, 5, 6, 0, 99], 8), Halted)
  {
    var m0 := Machine([1, 1, 1, 4, 99, 5, 6, 0, 99], 0);
    var m1 := Machine([1, 1, 1, 4, 2, 5, 6, 0, 99], 4);
    var m2 := Machine([30, 1, 1, 4, 2, 5, 6, 0, 99], 8);
    assert m0.mem[4 := 2] == m1.mem;
    assert Exec(m0) == Ok(Some(m1));
    assert m1.mem[0 := 30] == m2.mem;
    assert Exec(m1) == Ok(Some(m2));
    assert Exec(m2) == Ok(None);
  }
}
