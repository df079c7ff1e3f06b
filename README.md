# Advent of Code 2019 in Rust, modelled in Dafny

This project models the computational core of a Rust solution set for the
first seven Advent of Code 2019 puzzles and proves properties of it:

- **Intcode** (`intcode.dfy`, `intcode_props.dfy`, `intcode_examples.dfy`).
  The Intcode virtual machine of `intcode/src/lib.rs`:
  - an instruction word is decoded into an operation number and three addressing modes, with the source's truncating division;
  - each parameter is resolved to a literal or a bounds-checked address, and a write target in immediate mode is refused;
  - operations 1–8 and 99 act on a fixed-length `i32` memory, a FIFO input queue and an append-only output log.
  The `Program` class holds a reference to the caller's buffer, an `array<i32>`, and updates it in place. Its `Step` and `Run` methods are proved against the pure functions `Exec` and `RunSpec`. Every panic of the original becomes a `Panic` value.
- **Day 1** (`day1.dfy`). Fuel per module is `mass / 3 - 2` on unsigned 32-bit words, and underflow and overflow are failures. The second part adds the fuel for the fuel until the extra amount is 6 or less.
- **Day 2** (`day2.dfy`). The first, smaller machine: unsigned words, position mode only, operations 1, 2 and 99. It comes with the noun/verb search over a fresh copy of the program for each pair.
- **Day 3** (`day3.dfy`, `day3_parser.dfy`, `day3_examples.dfy`).
  - The wire grammar (`U|D|L|R` and digits, comma-separated, two lines), written as a parser over `seq<char>` that reports whether a failure consumed input.
  - The wire geometry: moves become absolute sections, horizontal and vertical sections are crossed, and the best crossing is chosen by Manhattan distance or by combined walking distance.
  - The worked examples: the crossings and both answers for every example wire pair.
- **Day 4** (`day4.dfy`). The two password rules, as loops over the decimal text of an `i32`, proved equal to declarative predicates. It includes the counts over the puzzle range.
- **Day 6** (`day6.dfy`). The orbit tree as a value `Orbits` (node list, parent map, children sets) and a class `Tree` with the same fields, updated in place. It covers insertion, the total orbit count, the path to the centre and the transfer count. The source's walks loop forever on a cycle. Here each walk has a budget of one step per node, and a walk that uses up this budget is proved to go on for ever.
- **Day 7** (`day7.dfy`). The amplifier chain is a fold of Intcode runs over the phase settings, each run on a fresh copy of memory. The answer is the best final signal over all arrangements of the settings 0 to 4.
- **Permutations** (`permutations.dfy`). The stack-driven iterator `UniquePermutations` is a class, proved to yield exactly `Generated(items)`: the lexicographic list of arrangements `Perms(items)` for a non-empty list, nothing for an empty one. Facts about `Perms` (length, multiset, count n!, completeness, distinctness) are proved separately.
- `wrappers.dfy` holds the shared `Option` and `Result` types, and `decimal.dfy` the decimal digits of a number, which the wire printer and the password rules share.

Loops that can run for ever in the source (the two machines, the orbit walks) take a step budget. A run that uses up its budget ends as `OutOfFuel`, `Unending`, `Endless` or `Unfinished`, never as a result.

## Model

| member | source | states |
|---|---|---|
| Intcode.AsUsize | intcode/src/lib.rs:158-165 | `as usize` keeps a non-negative word and maps a negative one at or above 2^64 - 2^31 |
| Intcode.ModeToInt | intcode/src/lib.rs:259-266 | a mode's digit is 0 or 1 |
| Intcode.ModeFromInt | intcode/src/lib.rs:268-278 | exactly 0 and 1 name a mode, as the inverse of `as_int`; any other value is `UnrecognisedMode` of that value |
| Intcode.ModeRoundTrip | intcode/src/lib.rs:259-278 | converting a mode to its digit and back gives the mode |
| Intcode.TruncDiv | intcode/src/lib.rs:306-313 | the quotient rounds toward zero for negative dividends as well |
| Intcode.DecodeOpCode | intcode/src/lib.rs:298-326 | a decoded opcode has op in 1..99 and re-encodes to the word it came from |
| Intcode.DecodeOkIff | intcode/src/lib.rs:298-326 | decoding succeeds exactly on non-negative words whose mode digits are 0/1 and whose last two digits are not 00 |
| Intcode.DecodeEncode | intcode/src/lib.rs:298-326 | encoding any opcode with op in 1..99 and decoding it gives it back |
| Intcode.ReadAt | intcode/src/lib.rs:37-39 | a fetch succeeds iff the position is inside memory, and then it is the word there; otherwise `ReadOutOfRange(pos)` |
| Intcode.ParseParam | intcode/src/lib.rs:103-117 | a resolved parameter's address is always inside memory |
| Intcode.ParseParamCases | intcode/src/lib.rs:103-117 | fetch past the end fails; Immediate yields the raw word; Position succeeds iff 0 <= word < len, else `PositionParamOutOfBounds(offset, word)` |
| Intcode.ReadParam | intcode/src/lib.rs:119-124 | an Immediate parameter reads as its literal, a Position one as the memory word at its address |
| Intcode.Size | intcode/src/lib.rs:231-239 | only Terminate has no size; every other op is one word plus one per parameter (4, 3 or 2) |
| Intcode.ParseTarget | intcode/src/lib.rs:52-55 | a resolved write target is an address inside memory |
| Intcode.ParseTargetCases | intcode/src/lib.rs:52-55 | an Immediate target whose word can be fetched is `ImmediateTargetParam(index)`; a Position target resolves like a parameter; a parameter error is passed on |
| Intcode.ParseOp | intcode/src/lib.rs:41-101 | a parsed op has every address in bounds and came from a fetchable, decodable word |
| Intcode.Apply | intcode/src/lib.rs:131-187 | applying an op keeps memory length and pointer, appends at most one output and consumes at most the front input |
| Intcode.Exec | intcode/src/lib.rs:126-188 | a step keeps memory length, appends at most one output and consumes at most the front of the queue |
| Intcode.RunSpec | intcode/src/lib.rs:190-200 | the run as a function of a step budget; no contract of its own: `RunSpecFailed`, `RunSpecHalted` and `RunSpecNext` state each turn, `RunKeepsShape`, `HaltsOnlyAtTerminate` and `MoreFuelSameEnd` what a whole run keeps, and `Program.Run` that the in-place loop follows it |
| Intcode.RunSpecFailed | intcode/src/lib.rs:126-129 | a failing step ends the run with that failure and the machine untouched |
| Intcode.RunSpecHalted | intcode/src/lib.rs:190-197 | a stopping step ends the run as halted in the machine it produced |
| Intcode.RunSpecNext | intcode/src/lib.rs:190-197 | any other step moves the pointer by its width or jump and continues the run from there |
| Intcode.Program.constructor | intcode/src/lib.rs:14-21 | a new program borrows the buffer, pointer 0, empty queue and log |
| Intcode.Program.AddInputValue | intcode/src/lib.rs:23-26 | the value is queued behind the queued ones; nothing else changes |
| Intcode.Program.AddInput | intcode/src/lib.rs:28-31 | the values are queued in order behind the queued ones; nothing else changes |
| Intcode.Program.Output | intcode/src/lib.rs:33-35 | the log is the machine's output so far |
| Intcode.Program.Step | intcode/src/lib.rs:126-188 | the in-place step does what `Exec` says to the buffer, queue and log; on failure nothing changes |
| Intcode.Program.Turn | intcode/src/lib.rs:191-196 | one loop turn: stop with the run's outcome, or move the pointer and leave the rest of the run still to go |
| Intcode.Program.Run | intcode/src/lib.rs:190-200 | the in-place run ends in the state and with the outcome `RunSpec` gives from the starting state |
| IntcodeProperties.DecodeDigits | intcode/src/lib.rs:298-326 | a well-formed word decodes to op = last two digits and modes from the hundreds, thousands and ten-thousands digits |
| IntcodeProperties.DecodeErrorOrder | intcode/src/lib.rs:306-324 | mode errors are reported arg2 first, then arg1, then arg0, and op 0 is `InvalidOpcode(0)` |
| IntcodeProperties.NegativeWordRejected | intcode/src/lib.rs:304-324 | a negative word never decodes, and one above -100 is `InvalidOpcode` of itself |
| IntcodeProperties.DecodeExamples | intcode/src/lib.rs:335-379 | the decoder test vectors 10010, 1009, 188 and 11111, and the error cases -1, -150, 21001 and 100 |
| IntcodeProperties.ParseOpErrors | intcode/src/lib.rs:41-101 | a pointer past the end, a decode error, and an op outside 1..8 and 99 each give their own error |
| IntcodeProperties.ImmediateTargetRejected | intcode/src/lib.rs:49-98 | an immediate-mode target is refused as index 3 for ops 1, 2, 7, 8 and as index 1 for op 3 |
| IntcodeProperties.ExecAdd | intcode/src/lib.rs:132-137 | Add writes only the target with the sum and advances by 4; a sum outside i32 is an overflow |
| IntcodeProperties.ExecMul | intcode/src/lib.rs:138-143 | Mul writes only the target with the product and advances by 4; a product outside i32 is an overflow |
| IntcodeProperties.ExecCompare | intcode/src/lib.rs:170-185 | LessThan and Equals write 1 or 0 into only the target and advance by 4 |
| IntcodeProperties.ExecInput | intcode/src/lib.rs:144-150 | Input fails iff the queue is empty; otherwise it stores the front at the target, pops it and advances by 2 |
| IntcodeProperties.ExecOutput | intcode/src/lib.rs:151-155 | Output appends its operand to the log, leaves memory alone and advances by 2 |
| IntcodeProperties.ExecJump | intcode/src/lib.rs:156-169 | JumpIfTrue jumps iff the condition is > 0, JumpIfFalse iff it is == 0, else advance by 3; memory unchanged |
| IntcodeProperties.NegativeConditionFallsThrough | intcode/src/lib.rs:156-169 | a negative condition makes neither jump |
| IntcodeProperties.ExecTerminate | intcode/src/lib.rs:186 | Terminate changes nothing and stops |
| IntcodeProperties.NegativeJumpTargetFails | intcode/src/lib.rs:156-196 | a taken jump to a negative target wraps to a huge address and the next fetch fails there |
| IntcodeProperties.StepFollows | intcode/src/lib.rs:126-188 | a step keeps memory length, only appends to the log and only consumes the queue from the front |
| IntcodeProperties.RunKeepsShape | intcode/src/lib.rs:190-200 | a whole run never resizes memory, only appends to the log, only consumes the queue from the front |
| IntcodeProperties.RunSpecIsRunWith | intcode/src/lib.rs:190-200 | the run is the generic loop with `Exec` as its step |
| IntcodeProperties.RunWithHalts | intcode/src/lib.rs:190-200 | a halted loop ended at a state where the step stops |
| IntcodeProperties.RunWithMoreFuel | intcode/src/lib.rs:190-200 | a loop that ended within its budget ends the same with a larger budget |
| IntcodeProperties.StopIsTerminate | intcode/src/lib.rs:186 | only operation 99 stops, and it leaves the machine unchanged |
| IntcodeProperties.HaltsOnlyAtTerminate | intcode/src/lib.rs:190-200 | a run halts only with the pointer on an operation 99 |
| IntcodeProperties.MoreFuelSameEnd | intcode/src/lib.rs:190-200 | a run that has ended is the same under any larger budget |
| IntcodeExamples.AddStep | intcode/src/lib.rs:382-391 | the first step of [1101,2,3,3,99] stores 5 at address 3 and advances by 4 |
| IntcodeExamples.MulStep | intcode/src/lib.rs:393-402 | the first step of [1102,2,3,3,99] stores 6 at address 3 and advances by 4 |
| IntcodeExamples.InputStep | intcode/src/lib.rs:404-413 | [3,1,99] with queue [1024] stores 1024 at address 1 and empties the queue |
| IntcodeExamples.OutputStep | intcode/src/lib.rs:415-424 | [104,1024,99] appends 1024 to the log |
| IntcodeExamples.JumpTrueStep | intcode/src/lib.rs:426-431 | [1105,1,5,104,1,99] jumps to 5 |
| IntcodeExamples.JumpFalseStep | intcode/src/lib.rs:433-438 | [1106,0,5,104,1,99] jumps to 5 |
| IntcodeExamples.LessThanTrueStep | intcode/src/lib.rs:440-445 | [1107,0,1,1,99] stores 1 at address 1 |
| IntcodeExamples.LessThanFalseStep | intcode/src/lib.rs:447-452 | [1107,1,1,1,99] stores 0 at address 1 |
| IntcodeExamples.EqualsTrueStep | intcode/src/lib.rs:454-459 | [1108,0,0,1,99] stores 1 at address 1 |
| IntcodeExamples.EqualsFalseStep | intcode/src/lib.rs:461-466 | [1108,1,0,1,99] stores 0 at address 1 |
| IntcodeExamples.AddExample | intcode/src/lib.rs:382-391 | the whole run of [1101,2,3,3,99] halts with memory [1101,2,3,5,99] |
| IntcodeExamples.MulExample | intcode/src/lib.rs:393-402 | the whole run of [1102,2,3,3,99] halts with memory [1102,2,3,6,99] |
| IntcodeExamples.InputExample | intcode/src/lib.rs:404-413 | the run of [3,1,99] fed 1024 halts with memory [3,1024,99] |
| IntcodeExamples.OutputExample | intcode/src/lib.rs:415-424 | the run of [104,1024,99] halts with log [1024] |
| IntcodeExamples.JumpExamples | intcode/src/lib.rs:426-438 | both jump programs skip the output and halt with an empty log |
| IntcodeExamples.LessThanExamples | intcode/src/lib.rs:440-452 | the two LessThan programs halt with memory [1107,1,1,1,99] and [1107,0,1,1,99] |
| IntcodeExamples.EqualsExamples | intcode/src/lib.rs:454-466 | the two Equals programs halt with memory [1108,1,0,1,99] and [1108,0,0,1,99] |
| Day1.ModuleFuel | day1/src/main.rs:37-39 | succeeds iff mass >= 6, giving the largest f with 3(f+2) <= mass; below 6 it underflows |
| Day1.FuelChain | day1/src/main.rs:48-54 | the chain starts at the module fuel and ends at its first term of 6 or less |
| Day1.FuelChainSteps | day1/src/main.rs:48-54 | every term but the last is above 6, and each next term is the fuel for the one before |
| Day1.FuelChainBound | day1/src/main.rs:46-56 | a chain sums to at most 3/2 of its head |
| Day1.ModuleTotalFuel | day1/src/main.rs:46-56 | succeeds iff mass >= 6, and is then the sum of the fuel chain from the module fuel |
| Day1.ModuleTotalFuelBounds | day1/src/main.rs:46-56 | a module's total is at least its own fuel and less than half its mass |
| Day1.RequiredFromSum | day1/src/main.rs:88-93 | the running total fails exactly when the true sum leaves u32, and otherwise equals it |
| Day1.RequiredFuelMeaning | day1/src/main.rs:88-93 | part one is the sum of module fuel over masses above 6 when it fits in u32, else an overflow |
| Day1.RequiredFuel | day1/src/main.rs:88-93 | part one; no contract of its own: `RequiredFuelMeaning` proves it is the sum of module fuel over the masses above 6 when that fits in u32, else an overflow |
| Day1.SmallMassIgnored | day1/src/main.rs:88-93 | a mass of 6 or less adds nothing to part one |
| Day1.TotalFromSum | day1/src/main.rs:96-100 | with every mass >= 6, part two is the sum of module totals when it fits in u32, else an overflow |
| Day1.TotalFuel | day1/src/main.rs:96-100 | part two; no contract of its own: `TotalFromSum`, `SmallMassFails` and `TotalFuelSingle` say it is the sum of module totals, failing on a mass under 6 or a sum beyond u32 |
| Day1.SmallMassFails | day1/src/main.rs:96-100 | any mass under 6 makes part two fail |
| Day1.TotalFuelSingle | day1/src/main.rs:96-100 | for one module part two is that module's total |
| Day1.RequiredFuelExamples | day1/src/main.rs:129-137 | required fuel of 14, 12, 1969, 100756 is 2, 2, 654, 33583 |
| Day1.TotalFuelSmallExamples | day1/src/main.rs:139-147 | total fuel of 14 and 12 is 2 |
| Day1.TotalFuelExample1969 | day1/src/main.rs:139-147 | total fuel of 1969 is 966 |
| Day1.TotalFuelExample100756 | day1/src/main.rs:139-147 | total fuel of 100756 is 50346 |
| Day2.Read | day2/src/main.rs:35-37 | a read succeeds iff the position is inside memory, giving the word there |
| Day2.Operands | day2/src/main.rs:58-64 | the three words after the opcode are fetched iff they are inside memory |
| Day2.Exec | day2/src/main.rs:39-56 | a step that goes on keeps memory length and advances the pointer by 4 |
| Day2.RunSpec | day2/src/main.rs:25-33 | a run never changes memory length |
| Day2.RunSpecFailed | day2/src/main.rs:25-33 | a failing step ends the run with that failure, machine untouched |
| Day2.RunSpecHalted | day2/src/main.rs:25-33 | operation 99 ends the run as halted with memory untouched |
| Day2.RunSpecNext | day2/src/main.rs:25-33 | a step that goes on hands the rest of the run to the machine it produced |
| Day2.ExecArithmetic | day2/src/main.rs:43-53 | ops 1/2 store mem[mem[p+1]] +/* mem[mem[p+2]] at mem[p+3], writing only that word, and advance by 4; a result beyond usize overflows |
| Day2.ExecHalts | day2/src/main.rs:39-42 | a step stops exactly at operation 99 |
| Day2.ExecFaults | day2/src/main.rs:35-64 | a pointer past the end fails at the pointer, and any op other than 1, 2, 99 is `UnknownOpcode`; for ops 1/2, operand words past the end fail at the memory length, an operand address outside memory fails at that address, and a target outside memory is `WriteOutOfRange` of the target (or an overflow when the result leaves usize first) |
| Day2.ExecChangesOneWord | day2/src/main.rs:43-53 | a step that goes on changes at most one memory word |
| Day2.Program.constructor | day2/src/main.rs:14-19 | a new program holds the buffer with pointer 0 |
| Day2.Program.Memory | day2/src/main.rs:21-23 | hands back the memory as the run left it |
| Day2.Program.Step | day2/src/main.rs:39-56 | the in-place step does what `Exec` says; on halt or failure nothing changes |
| Day2.Program.Turn | day2/src/main.rs:26-30 | one loop turn: stop with the run's outcome or leave the rest of the run to go |
| Day2.Program.Run | day2/src/main.rs:25-33 | the in-place run ends in the state and outcome `RunSpec` gives |
| Day2.Patched | day2/src/main.rs:81-83 | address 1 holds the noun, address 2 the verb, every other word unchanged |
| Day2.Attempt | day2/src/main.rs:81-85 | one pair; no contract of its own: `TryPair` proves the in-place run of a fresh patched copy answers exactly as it does |
| Day2.SearchFrom | day2/src/main.rs:79-89 | the search from one pair on; no contract of its own: `SearchFromNext` and `SearchFromMeaning` state what it returns |
| Day2.SearchFromNext | day2/src/main.rs:79-88 | an error or a hit ends the search at this pair; a miss moves to the next pair |
| Day2.SearchFromMeaning | day2/src/main.rs:78-92 | a hit is the first pair in row-major order over 0..98 whose run leaves `expected` at address 0; None iff every run halts without it; an error is that of the first run that does not halt |
| Day2.Search | day2/src/main.rs:78-92 | no contract of its own: `SearchFromMeaning` from pair (0, 0) states it is the first matching pair in row-major order, and `FindNounVerb` proves the nested loops return it |
| Day2.TryPair | day2/src/main.rs:81-87 | running a fresh patched copy answers exactly as `Attempt` |
| Day2.FindNounVerb | day2/src/main.rs:78-92 | the nested loops over fresh copies return exactly `Search`; the program is never changed |
| Day2.RunExample1 | day2/src/main.rs:113 | [1,0,0,0,99] halts as [2,0,0,0,99] |
| Day2.RunExample2 | day2/src/main.rs:114 | [2,3,0,3,99] halts as [2,3,0,6,99] |
| Day2.RunExample3 | day2/src/main.rs:115 | [2,4,4,5,99,0] halts as [2,4,4,5,99,9801] |
| Day2.RunExample4 | day2/src/main.rs:116-119 | [1,1,1,4,99,5,6,0,99] halts as [30,1,1,4,2,5,6,0,99] |
| Day3.DirectionOf | day3/src/main.rs:68-76 | Horizontal iff start.y == end.y (so a zero-length section too); Vertical iff the ys differ and the xs agree |
| Day3.Trace | day3/src/main.rs:95-103 | the scan gives one section per move |
| Day3.IntoAbsoluteCoords | day3/src/main.rs:79-104 | one section per move |
| Day3.TraceSteps | day3/src/main.rs:95-103 | sections start where asked, end one move later, chain on, and the walked distance grows by |dx|+|dy| |
| Day3.IntoAbsoluteCoordsSteps | day3/src/main.rs:79-104 | section 0 starts at the port having walked 0; each ends at start + move; the next starts where it ended; distances sum the steps before |
| Day3.AxisMovesNeverDiagonal | day3/src/main.rs:68-104 | moves along one axis never give a diagonal section |
| Day3.MeetIsCommonPoint | day3/src/main.rs:135-162 | a horizontal and a vertical section meet iff some point lies on both; it is (v.start.x, h.start.y) with the walked distances added |
| Day3.MeetNeedsBothAxes | day3/src/main.rs:129-133 | two sections of the same direction, or a diagonal one, never meet |
| Day3.Cross | day3/src/main.rs:135-162 | no contract of its own: `MeetIsCommonPoint` proves a horizontal and a vertical section cross iff some point lies on both, at (v.start.x, h.start.y) with the walked distances summed |
| Day3.Meet | day3/src/main.rs:129-133 | no contract of its own: `MeetIsCommonPoint` covers a horizontal and a vertical section in either order, `MeetNeedsBothAxes` every other pair |
| Day3.RowMeaning | day3/src/main.rs:125-134 | the crossings of one section are exactly its meetings with each other section |
| Day3.AllRowsMeaning | day3/src/main.rs:121-134 | the crossings of two lists are exactly the meetings of any pair |
| Day3.FindIntersectionsMeaning | day3/src/main.rs:121-164 | a crossing is found iff some section after the first of each wire meets one of the other's |
| Day3.FindIntersections | day3/src/main.rs:121-164 | no contract of its own: `FindIntersectionsMeaning` states it |
| Day3.FoldClosest | day3/src/main.rs:166-175 | the fold ends on the seed or on the first crossing of least Manhattan distance, with that distance |
| Day3.FindClosestStartMeaning | day3/src/main.rs:166-175 | part one is the first nearest crossing when one is nearer than i32::MAX, else the seed (0,0) at i32::MAX |
| Day3.FindClosestStart | day3/src/main.rs:166-175 | no contract of its own: `FindClosestStartMeaning` states it |
| Day3.FoldShortest | day3/src/main.rs:177-185 | the fold ends on the seed or on the first crossing of least combined walking |
| Day3.FindShortestStartMeaning | day3/src/main.rs:177-185 | part two is the first shortest crossing when one walks less than i32::MAX, else the seed |
| Day3.FindShortestStart | day3/src/main.rs:177-185 | no contract of its own: `FindShortestStartMeaning` states it |
| Day3Examples.ShortestMirrorExamples | day3/src/main.rs:249-252 | the four wire pairs "U10,L15"/"L10,U15" mirrored up or down, left or right, cross once, past the first sections, and part two gives 40 |
| Day3Examples.ShortestStaircaseExample | day3/src/main.rs:248 | "U3,L5" and "L2,U1,R1,U1,L1,U3" cross once, at (-2, 3), and part two gives 12 |
| Day3Examples.LongExampleOne | day3/src/main.rs:233-234 | "R75,D30,R83,U83,L12,D49,R71,U7,L72" and "U62,R66,U55,R34,D71,R55,D58,R83" give 159 for part one and 610 for part two (the second figure at lines 254-255) |
| Day3Examples.LongExampleTwo | day3/src/main.rs:237-238 | "R98,U47,R26,D63,R33,U87,L62,D20,R33,U53,R51" and "U98,R91,D20,R16,D67,R40,U7,R15,U6,R7" give 135 for part one and 410 for part two (the second figure at lines 258-259) |
| Day3Parser.Unit | day3/src/parser.rs:15-20 | each letter maps to a unit step along exactly one axis |
| Day3Parser.DigitRun | day3/src/parser.rs:22-23 | the digit run is the longest prefix of digits |
| Day3Parser.Section | day3/src/parser.rs:10-26 | a parsed section consumes at least a letter and a digit and is axis-aligned |
| Day3Parser.LineTail | day3/src/parser.rs:30-36 | further sections only extend what was parsed so far |
| Day3Parser.Line | day3/src/parser.rs:30-36 | a parsed line never consumes more than its input |
| Day3Parser.LineBreak | day3/src/parser.rs:43 | a line break consumes "\n" or "\r\n" |
| Day3Parser.Wires | day3/src/parser.rs:38-44 | no contract of its own: `WiresRoundTrip` proves two printed lines joined by either line break parse back to the pair, and `WiresExample` checks the test input |
| Day3Parser.SectionNeedsDirection | day3/src/parser.rs:15-20 | a leading byte other than U/D/L/R fails without consuming, and the line is then empty |
| Day3Parser.SectionNeedsDigit | day3/src/parser.rs:22-25 | a letter with no digit after it fails after consuming |
| Day3Parser.SectionValue | day3/src/parser.rs:22-25 | a parsed section is the letter's unit step times the value of all the digits after it |
| Day3Parser.DecimalRoundTrip | day3/src/parser.rs:22-23 | reading back the digits `Decimal.Digits` prints for a number gives the number, so they are its decimal expansion |
| Day3Parser.Letter | day3/src/parser.rs:15-18 | the printing letter's unit step, scaled by the length, is the move |
| Day3Parser.SectionRoundTrip | day3/src/parser.rs:10-26 | a printed section followed by a non-digit parses back to the move |
| Day3Parser.LineTailRoundTrip | day3/src/parser.rs:35 | printed comma-separated sections parse back in order |
| Day3Parser.LineRoundTrip | day3/src/parser.rs:30-36 | a printed line parses back to the same sections |
| Day3Parser.WiresRoundTrip | day3/src/parser.rs:38-44 | two printed lines joined by a line feed or by a carriage return and line feed parse back to the pair |
| Day3Parser.SectionExamples | day3/src/parser.rs:56-62 | "U19", "D5", "L1" and "R4096" parse to (0,19), (0,-5), (-1,0) and (4096,0) |
| Day3Parser.LineExample | day3/src/parser.rs:64-70 | "U19,L1,D5,R4096" parses to the four sections in order |
| Day3Parser.WiresExample | day3/src/parser.rs:72-84 | the two-line example parses to the two wires in order |
| Decimal.Digits | day4/src/main.rs:2 | the decimal text has at least one digit, only digits, and one digit iff n < 10 |
| Day4.DecimalText | day4/src/main.rs:2 | the text is non-empty, and a single character for 0..9 |
| Day4.Part1 | day4/src/main.rs:1-16 | the first rule, stated declaratively: the digits never decrease and two adjacent digits are equal; `CheckPart1` proves the loop decides it |
| Day4.Part2 | day4/src/main.rs:18-42 | the second rule, stated declaratively: the digits never decrease and some maximal run of equal digits is exactly two long; `CheckPart2` proves the loop decides it |
| Day4.RunCloses | day4/src/main.rs:29-38 | where a run closes, it was exactly two long iff the run counter is 1 |
| Day4.CheckPart1 | day4/src/main.rs:1-16 | true iff the digits never decrease and some adjacent pair is equal |
| Day4.CheckPart2 | day4/src/main.rs:18-42 | true iff the digits never decrease and some maximal run of equal digits is exactly two long |
| Day4.Part2ImpliesPart1 | day4/src/main.rs:1-42 | passing part two implies passing part one |
| Day4.SingleDigitFails | day4/src/main.rs:6-41 | a single digit fails both rules |
| Day4.Count | day4/src/main.rs:45-53 | the loop counts exactly the numbers in [lo, hi) passing the chosen rule |
| Day4.CountPart2AtMostPart1 | day4/src/main.rs:45-53 | part two never counts more than part one |
| Day4.CountAtMostRange | day4/src/main.rs:45-53 | no more numbers pass than the range holds, and none in an empty range |
| Day4.CountPuzzleRange | day4/src/main.rs:44-56 | the two counts over [272091, 815432), part two at most part one |
| Day6.AddNode | day6/src/main.rs:68-83 | the value becomes a node, at most one node is added, and parent links are unchanged |
| Day6.AddNodeConsistent | day6/src/main.rs:68-83 | lookup-or-create keeps the tree consistent and every other children set unchanged |
| Day6.AddNodeIdempotent | day6/src/main.rs:68-83 | looking a value up twice creates it at most once |
| Day6.InsertOrbitMeaning | day6/src/main.rs:85-95 | both are nodes, a's parent is b whatever it was, a is among b's children, no other link or children set changes, old nodes keep their order |
| Day6.InsertOrbitConsistent | day6/src/main.rs:85-95 | insertion keeps node values distinct and every link and child a node |
| Day6.InsertOrbitLinks | day6/src/main.rs:85-95 | the node list gains a then b if missing, and the parent map gains a -> b |
| Day6.InsertOrbit | day6/src/main.rs:85-95 | no contract of its own: `InsertOrbitMeaning`, `InsertOrbitConsistent` and `InsertOrbitLinks` state it |
| Day6.WalkRecurs | day6/src/main.rs:105-120 | a parent walk linked for more steps than there are nodes only ever revisits its first positions |
| Day6.ClimbMeaning | day6/src/main.rs:105-120 | a climb reaches root after n steps iff walk position n is root and none before is; Stray iff a parentless node comes first |
| Day6.ClimbMoreFuel | day6/src/main.rs:105-120 | a climb that ended within its budget ends the same with any larger one |
| Day6.UnendingClimbLinked | day6/src/main.rs:105-120 | a climb out of budget passed only non-root nodes with parents |
| Day6.LinkedClimbUnending | day6/src/main.rs:105-120 | a walk whose positions all have parents and avoid root runs any climb out of budget |
| Day6.UnendingClimbIsForever | day6/src/main.rs:105-120 | with one step per node, a climb that runs out never ends under any budget |
| Day6.ClimbFrom | day6/src/main.rs:105-120 | no contract of its own: `ClimbMeaning` states where it ends, `ClimbMoreFuel` and `UnendingClimbIsForever` that the budget does not change an ended climb and that a climb out of budget never ends |
| Day6.OrbitTotalMeaning | day6/src/main.rs:97-126 | the count fails iff some node's climb never ends; otherwise it is the sum, taken from the first node on, of the steps to root of the nodes that reach it, so at least each node's step count |
| Day6.ReachedStepsLast | day6/src/main.rs:97-126 | summing the reached steps from the first node agrees with adding the last node's steps to the rest, as the source's running total does |
| Day6.OrbitTotalErrIsEndless | day6/src/main.rs:97-126 | the only error of a count is an endless walk |
| Day6.CountOrbits | day6/src/main.rs:97-126 | no contract of its own: `OrbitTotalMeaning` and `OrbitTotalErrIsEndless` over the tree's nodes with one step per node state it |
| Day6.PathFromSound | day6/src/main.rs:137-153 | the path starts at `from`, follows parent links and ends at a parentless node |
| Day6.PathFromComplete | day6/src/main.rs:137-153 | any such chain from `from` within the budget is the path found |
| Day6.UnendingPathLinked | day6/src/main.rs:141-151 | a path out of budget passed only nodes with parents |
| Day6.LinkedPathUnending | day6/src/main.rs:141-151 | a walk linked at its first positions runs a path out of budget |
| Day6.UnendingPathIsForever | day6/src/main.rs:141-151 | with one step per node, a path that runs out never ends under any budget |
| Day6.PathFrom | day6/src/main.rs:137-153 | no contract of its own: `PathFromSound`, `PathFromComplete` and `UnendingPathIsForever` state it |
| Day6.PathOf | day6/src/main.rs:128-154 | a missing node fails; otherwise `PathFrom` with one step per node; `Tree.Path` proves the loop gives it |
| Day6.ForkFrom | day6/src/main.rs:160-169 | the first position from the ends where the paths differ, agreeing before it; None iff they agree until one runs out |
| Day6.PathsMerge | day6/src/main.rs:128-154 | two paths sharing a node share everything after it |
| Day6.JumpsCountsTransfers | day6/src/main.rs:156-172 | the transfer count is the steps from each end up to the nearest shared object, and no node below it is on the other path |
| Day6.JumpsOf | day6/src/main.rs:156-172 | no contract of its own: `JumpsCountsTransfers` states it |
| Day6.CountSingleOrbit | day6/src/main.rs:209-215 | one object orbiting the centre makes 1 orbit |
| Day6.CountOneLevel | day6/src/main.rs:217-225 | three direct orbits make 3 |
| Day6.CountNested | day6/src/main.rs:227-235 | a chain of three makes 6 |
| Day6.Tree.constructor | day6/src/main.rs:62-66 | a new tree is the empty orbit map |
| Day6.Tree.Find | day6/src/main.rs:69-73 | the scan finds a position holding the value iff the value is a node |
| Day6.Tree.GetOrCreateNode | day6/src/main.rs:68-83 | the tree becomes `AddNode` of the old one, and the returned position holds the value |
| Day6.Tree.Insert | day6/src/main.rs:85-95 | the tree becomes `InsertOrbit` of the old one and stays consistent |
| Day6.Tree.ClimbToRoot | day6/src/main.rs:102-120 | the loop gives the climb `ClimbFrom` with one step per node |
| Day6.Tree.Count | day6/src/main.rs:97-126 | the loop over the nodes gives `CountOrbits` of the tree |
| Day6.Tree.Path | day6/src/main.rs:128-154 | the loop gives `PathOf`: a missing node fails, otherwise the path to the centre |
| Day6.Tree.Jumps | day6/src/main.rs:156-172 | the loop gives `JumpsOf` of the tree |
| Permutations.Remove | permutations/src/lib.rs:25-30 | the list without position idx is one shorter |
| Permutations.RemoveMultiset | permutations/src/lib.rs:25-30 | removing a position takes out exactly that element |
| Permutations.PermsArePermutations | permutations/src/lib.rs:19-33 | every arrangement has the list's length and elements |
| Permutations.PermsCount | permutations/src/lib.rs:36-61 | there are n! arrangements |
| Permutations.PermsComplete | permutations/src/lib.rs:36-61 | every rearrangement of the list is among the arrangements |
| Permutations.PermsDistinct | permutations/src/lib.rs:36-61 | the arrangements of distinct elements are produced once each |
| Permutations.Perms | permutations/src/lib.rs:36-86 | the arrangements of a list in the iterator's order; no contract of its own: `PermsArePermutations`, `PermsCount`, `PermsComplete` and `PermsDistinct` state it, and `Collect` proves the iterator yields exactly it for a non-empty list |
| Permutations.Generated | permutations/src/lib.rs:19-86 | what the iterator yields: `Perms(items)` for a non-empty list and nothing for an empty one, whose single level has no element to choose; no contract of its own: `Collect` proves the iterator yields exactly it |
| Permutations.PermsOne | permutations/src/lib.rs:114-120 | one element has the single arrangement |
| Permutations.PermsTwo | permutations/src/lib.rs:122-128 | [a,b] arranges as [a,b] then [b,a] |
| Permutations.PermsThree | permutations/src/lib.rs:130-146 | three elements arrange in the six orders of positions |
| Permutations.ThreeExample | permutations/src/lib.rs:130-146 | [0,1,2] yields exactly the six orderings from [0,1,2] to [2,1,0] |
| Permutations.Chosen | permutations/src/lib.rs:74-79 | the item has at most one element per level |
| Permutations.Bump | permutations/src/lib.rs:81-83 | moving the top counter on keeps the stack height |
| Permutations.MoveWellFormed | permutations/src/lib.rs:36-61 | each pop or push of the settling loop keeps the stack well formed |
| Permutations.PopPending | permutations/src/lib.rs:39-44 | popping an exhausted top and moving the level below on keeps what is still to come |
| Permutations.PushPending | permutations/src/lib.rs:56-58 | pushing the next level keeps what is still to come |
| Permutations.MovePending | permutations/src/lib.rs:36-61 | no move of the settling loop changes what is still to come |
| Permutations.YieldPending | permutations/src/lib.rs:74-85 | a full live stack yields the next arrangement, and moving its top on leaves the rest |
| Permutations.UniquePermutations.constructor | permutations/src/lib.rs:9-17 | one level holding all items at counter 0; what is to come is `Perms(items)`, nothing for an empty list |
| Permutations.UniquePermutations.NextStackItem | permutations/src/lib.rs:19-34 | a level is opened iff the top has an element left, holding the top's list without it |
| Permutations.UniquePermutations.PopLevel | permutations/src/lib.rs:39-44 | drops the exhausted top and moves the level below on |
| Permutations.UniquePermutations.Settle | permutations/src/lib.rs:37-60 | one loop turn: a pop or push, ending full-and-live or empty, or making progress |
| Permutations.UniquePermutations.GenerateNextStack | permutations/src/lib.rs:36-61 | the stack ends empty or full with a live top; what is to come is unchanged |
| Permutations.UniquePermutations.Next | permutations/src/lib.rs:67-86 | yields the next arrangement still to come and drops it, or None for ever once none is left |
| Permutations.Drain | permutations/src/lib.rs:67-86 | drawing until None collects exactly what was still to come |
| Permutations.Collect | permutations/src/lib.rs:94-108 | a fresh iterator over the list yields exactly `Generated(items)`: `Perms(items)`, nothing for an empty list |
| Day7.AmplifyMeaning | day7/src/main.rs:22-28 | an amplifier passes a signal iff its run halted with output, the first word of it; a larger budget never changes an ended run |
| Day7.Amplify | day7/src/main.rs:22-28 | no contract of its own: `AmplifyMeaning` states it and `AmplifyOn` proves the program object gives it |
| Day7.ChainSplit | day7/src/main.rs:21-29 | the chain over joined settings is the first part's chain continued by the second |
| Day7.ChainTrace | day7/src/main.rs:21-29 | the chain yields v iff there is a trace of signals from the start to v, each the next amplifier's output on the one before |
| Day7.ChainStops | day7/src/main.rs:21-29 | a failing chain fails at some amplifier whose predecessors all passed a signal, with that run's error |
| Day7.ChainMoreFuel | day7/src/main.rs:21-29 | a chain that has ended is the same under any larger budget |
| Day7.Chain | day7/src/main.rs:21-29 | no contract of its own: `ChainSplit`, `ChainTrace`, `ChainStops` and `ChainMoreFuel` state it |
| Day7.RunAmplifiersShort | day7/src/main.rs:21 | no settings give 0; one setting gives that amplifier fed 0 |
| Day7.RunAmplifiers | day7/src/main.rs:20-30 | the chain fed 0; no contract of its own beyond `RunAmplifiersShort`; `Amplifiers` proves the fold with the program object gives it |
| Day7.AmplifyOn | day7/src/main.rs:22-28 | a fresh copy run through the program object gives exactly `Amplify` |
| Day7.Amplifiers | day7/src/main.rs:20-30 | the fold with the program object gives exactly `RunAmplifiers`; the caller's memory is only read |
| Day7.BestIsMaximum | day7/src/main.rs:34-43 | the best succeeds iff there is an arrangement and every chain succeeds; it is at least each and reached by one |
| Day7.BestStops | day7/src/main.rs:34-43 | a failing search fails at the first failing arrangement with its error, or on an empty list |
| Day7.Best | day7/src/main.rs:37-43 | no contract of its own: `BestIsMaximum` and `BestStops` state it |
| Day7.BestArrangement | day7/src/main.rs:34-43 | the best over what the iterator generates for a list of settings; no contract of its own: `BestOverArrangements` states it |
| Day7.BestOverArrangements | day7/src/main.rs:34-43 | over the generated arrangements of a list: an empty list has none and is `NoArrangements` (the `expect` panic); otherwise found iff every rearrangement's chain succeeds, then the largest, reached by one |
| Day7.Settings | day7/src/main.rs:34-35 | the settings are 0, 1, 2, 3, 4 in order |
| Day7.MaxSignal | day7/src/main.rs:32-43 | the answer: `BestArrangement` of `Settings`; no contract of its own: `BestOverArrangements` states it for any list of settings, and `Settings` is not empty |

## Left out

- Input and output: every `read_input`, the file paths and every `println!`. The `main` functions are modelled only through the calls they make: the two fuel sums, the noun/verb search, the wire searches, the two counts, `count("COM")` and `jumps("YOU", "SAN")`, and the best amplifier signal.
- `day2/src/main.rs` `main`: the fixed patch with 12 and 2 and the `100 * noun + verb` printout are not modelled separately. `Patched` covers the patch.
- All of `day5/src/main.rs`: it only reads a file and runs the machine.
- The parser-combinator library in `day3/src/parser.rs`: its streams, positions, error types and backtracking. The grammar is written out directly, and a combinator error is reduced to "failed, with or without consuming input". The buffered stream set up in day 3's `read_input` is left out too.
- Intcode.Program.Run: the source's loop has no bound. The model follows it for a given budget of steps, and a run that uses up the budget ends as `OutOfFuel`.
- Intcode.ParseParam: compares the address word with the memory length as a mathematical integer. The source compares it with `self.memory.len() as i32` (intcode/src/lib.rs:110), which truncates for a memory of 2^31 words or more; such memories are not modelled.
- Intcode.Exec: an `i32` sum or product out of range is a failure, as in a debug build. Wrap-around as in a release build is not modelled. A panic is a `Panic` value with the machine left as it was before the step, because the source's state after a panic is never observed.
- Day2.Exec: `usize` is taken to be 64 bits wide, and an out-of-range sum or product is a failure, as in a debug build.
- Day2.Program.Run: unbounded in the source; followed for a budget of steps as for Intcode.
- Day3.IntoAbsoluteCoords: positions and walked distances are unbounded integers, so `i32` overflow of coordinates, distances and `abs` is not modelled.
- Day3Examples: the test figures of `day3/src/main.rs` are proved from the moves each example's text stands for, not from the text itself; the parser's own example (`WiresExample`) covers text to moves.
- Day3Parser.Section: a length that does not fit in an `i32` (on which the source's `unwrap` panics) is the error `LengthTooLarge`, not a panic.
- Day6: the `Rc<RefCell<…>>` node sharing, the `Debug` impl and the `Ord`/`PartialEq` impls are replaced by a node list, a parent map and children sets keyed by value. The disabled `_check_count_all_orbits_for_example` is not a test and is left out.
- Day6.Tree.Insert: does not model the `RefCell` borrow panic in three cases. The first is inserting a pair that is already recorded. The second is making a node with children its own parent. The third follows `insert(a, a)` on a childless `a`, which puts `a` into its own children set: a later `insert(x, a)` then compares `x` against `a` inside that set while `a` is mutably borrowed (day6/src/main.rs:94). In all three, the derived ordering of nodes reads a node that is mutably borrowed.
- Day6.Tree.Count: nodes are kept in insertion order, not in the `BTreeSet` order of the source. The sum does not depend on the order, and look-ups are by value. Overflow of the `usize` total is not modelled.
- Day6.ClimbFrom: the source's walks loop for ever on a cycle of parent links. The model gives each walk one step per node and reports `Endless`. `UnendingClimbIsForever` and `UnendingPathIsForever` prove that such a walk never ends under any budget.
- Day6.JumpsOf: when one path is the tail of the other, the source computes `len - i` with `i` past the end, then underflows or unwraps `None` and panics. This is the error `NoFork`.
- Day7.RunAmplifiers: each amplifier's run is followed for a budget of steps. A run that uses it up is the error `Unfinished`. A failed run is `Crashed`, and a run without output is `NoOutput`, the `expect` panic.
- Day7.MaxSignal: `BestOverArrangements` states what it is for any list of settings. It is not restated as a separate lemma for the list 0 to 4. The `expect` on an empty maximum is the error `NoArrangements`.
- Permutations.UniquePermutations: the iterator yields references into the input. The model yields copies of the elements. Despite the name, duplicate input elements give duplicate arrangements, because the iterator works on positions; the model does the same.
