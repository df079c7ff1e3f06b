/**
 * Amplifier chains: the same Intcode program runs once per amplifier, each
 * run on a fresh copy of the memory, fed its phase setting and the signal
 * the previous amplifier produced; the first output of a run is the next
 * signal. The answer is the largest final signal over every arrangement of
 * the phase settings 0 to 4.
 *
 * A run that fails, that never halts within its step budget, or that halts
 * without output stops the whole chain with an `AmpError`.
 */
module Day7 {
  import opened Wrappers
  import opened Intcode
  import IntcodeProperties
  import Permutations

  datatype AmpError =
    | Crashed(panic: Panic)   // the program failed
    | Unfinished              // still running when the step budget was spent
    | NoOutput                // halted with an empty output log
    | NoArrangements          // a maximum over nothing

  // ---------------------------------------------------------------------------
  // One amplifier
  // ---------------------------------------------------------------------------

  /** The machine an amplifier starts as: the program's memory, pointer 0, inputs phase then signal. */
  function Boot(mem: seq<i32>, phase: i32, signal: i32): Machine
  {
    Machine(mem, 0, [phase, signal], [])
  }

  /** The signal one amplifier passes on: the first output of its run. */
  function Amplify(mem: seq<i32>, phase: i32, signal: i32, fuel: nat): (r: Result<i32, AmpError>)
  {
    var (end, how) := RunSpec(Boot(mem, phase, signal), fuel);
    match how
    case Failed(p) => Err(Crashed(p))
    case OutOfFuel => Err(Unfinished)
    case Halted => if end.output == [] then Err(NoOutput) else Ok(end.output[0])
  }

  /**
   * An amplifier's signal is the first word of the output log of a run that
   * halted; a run that halts with output always passes one on, and a longer
   * budget never changes a run that has ended.
   */
  lemma AmplifyMeaning(mem: seq<i32>, phase: i32, signal: i32, fuel: nat, more: nat)
    requires fuel <= more
    ensures var run := RunSpec(Boot(mem, phase, signal), fuel);
      Amplify(mem, phase, signal, fuel).Ok? <==> run.1 == Halted && run.0.output != []
    ensures var run := RunSpec(Boot(mem, phase, signal), fuel);
      Amplify(mem, phase, signal, fuel).Ok? ==> Amplify(mem, phase, signal, fuel).value == run.0.output[0]
    ensures Amplify(mem, phase, signal, fuel) != Err(Unfinished) ==>
      Amplify(mem, phase, signal, more) == Amplify(mem, phase, signal, fuel)
  {
    if Amplify(mem, phase, signal, fuel) != Err(Unfinished) {
      IntcodeProperties.MoreFuelSameEnd(Boot(mem, phase, signal), fuel, more);
    }
  }

  // ---------------------------------------------------------------------------
  // The chain
  // ---------------------------------------------------------------------------

  /** The fold over the phase settings, in order, starting from `signal`. */
  function Chain(mem: seq<i32>, phases: seq<i32>, signal: i32, fuel: nat): Result<i32, AmpError>
  {
    if phases == [] then Ok(signal)
    else
      var next :- Amplify(mem, phases[0], signal, fuel);
      Chain(mem, phases[1..], next, fuel)
  }

  /** The signal out of the last amplifier when the first one is fed 0. */
  function RunAmplifiers(mem: seq<i32>, phases: seq<i32>, fuel: nat): Result<i32, AmpError>
  {
    Chain(mem, phases, 0, fuel)
  }

  /**
   * `signals` records a chain that went through: it starts at `signal`, and
   * each amplifier turns the signal before it into the one after it.
   */
  ghost predicate Trace(mem: seq<i32>, phases: seq<i32>, signals: seq<i32>, fuel: nat)
  {
    |signals| == |phases| + 1 &&
    forall i :: 0 <= i < |phases| ==> Amplify(mem, phases[i], signals[i], fuel) == Ok(signals[i + 1])
  }

  /** A chain over a joined list of settings is the chain over the first part, continued by the second. */
  lemma {:induction false} ChainSplit(mem: seq<i32>, a: seq<i32>, b: seq<i32>, signal: i32, fuel: nat)
    ensures Chain(mem, a + b, signal, fuel) ==
      match Chain(mem, a, signal, fuel)
      case Ok(v) => Chain(mem, b, v, fuel)
      case Err(e) => Err(e)
    decreases |a|
  {
    if a == [] {
      assert a + b == b;
    } else {
      assert (a + b)[0] == a[0] && (a + b)[1..] == a[1..] + b;
      var first := Amplify(mem, a[0], signal, fuel);
      if first.Ok? {
        ChainSplit(mem, a[1..], b, first.value, fuel);
      }
    }
  }

  /** A chain that went through has a trace from its start signal to its result, and one with such a trace went through. */
  lemma ChainTrace(mem: seq<i32>, phases: seq<i32>, signal: i32, fuel: nat, v: i32)
    ensures Chain(mem, phases, signal, fuel) == Ok(v) <==>
      exists signals :: Trace(mem, phases, signals, fuel) && signals[0] == signal && signals[|phases|] == v
  {
    if Chain(mem, phases, signal, fuel) == Ok(v) {
      ChainHasTrace(mem, phases, signal, fuel, v);
    }
    if exists signals :: Trace(mem, phases, signals, fuel) && signals[0] == signal && signals[|phases|] == v {
      var signals :| Trace(mem, phases, signals, fuel) && signals[0] == signal && signals[|phases|] == v;
      TraceChain(mem, phases, signals, fuel);
    }
  }

  lemma {:induction false} ChainHasTrace(mem: seq<i32>, phases: seq<i32>, signal: i32, fuel: nat, v: i32)
    requires Chain(mem, phases, signal, fuel) == Ok(v)
    ensures exists signals :: Trace(mem, phases, signals, fuel) && signals[0] == signal && signals[|phases|] == v
    decreases |phases|
  {
    if phases == [] {
      assert Trace(mem, phases, [v], fuel);
    } else {
      var first := Amplify(mem, phases[0], signal, fuel).value;
      ChainHasTrace(mem, phases[1..], first, fuel, v);
      var rest :| Trace(mem, phases[1..], rest, fuel) && rest[0] == first && rest[|phases| - 1] == v;
      var signals := [signal] + rest;
      forall i | 0 <= i < |phases|
        ensures Amplify(mem, phases[i], signals[i], fuel) == Ok(signals[i + 1])
      {
        if i > 0 {
          assert phases[i] == phases[1..][i - 1];
        }
      }
      assert Trace(mem, phases, signals, fuel);
    }
  }

  lemma {:induction false} TraceChain(mem: seq<i32>, phases: seq<i32>, signals: seq<i32>, fuel: nat)
    requires Trace(mem, phases, signals, fuel)
    ensures Chain(mem, phases, signals[0], fuel) == Ok(signals[|phases|])
    decreases |phases|
  {
    if phases != [] {
      assert Amplify(mem, phases[0], signals[0], fuel) == Ok(signals[1]);
      var rest := signals[1..];
      forall i | 0 <= i < |phases| - 1
        ensures Amplify(mem, phases[1..][i], rest[i], fuel) == Ok(rest[i + 1])
      {
        assert Amplify(mem, phases[i + 1], signals[i + 1], fuel) == Ok(signals[i + 2]);
      }
      assert Trace(mem, phases[1..], rest, fuel);
      TraceChain(mem, phases[1..], rest, fuel);
    }
  }

  /**
   * A chain that stops stops at some amplifier: every amplifier before it
   * passed its signal on, and that one's run ended with the chain's error.
   */
  lemma {:induction false} ChainStops(mem: seq<i32>, phases: seq<i32>, signal: i32, fuel: nat)
    requires Chain(mem, phases, signal, fuel).Err?
    ensures exists k, v :: (0 <= k < |phases| && Chain(mem, phases[..k], signal, fuel) == Ok(v) &&
      Amplify(mem, phases[k], v, fuel) == Chain(mem, phases, signal, fuel))
    decreases |phases|
  {
    var first := Amplify(mem, phases[0], signal, fuel);
    if first.Err? {
      assert phases[..0] == [];
      assert Chain(mem, phases[..0], signal, fuel) == Ok(signal);
    } else {
      ChainStops(mem, phases[1..], first.value, fuel);
      var k, v :| 0 <= k < |phases| - 1 && Chain(mem, phases[1..][..k], first.value, fuel) == Ok(v) &&
        Amplify(mem, phases[1..][k], v, fuel) == Chain(mem, phases[1..], first.value, fuel);
      var prefix := phases[..k + 1];
      assert prefix != [] && prefix[0] == phases[0] && prefix[1..] == phases[1..][..k];
      assert Chain(mem, prefix, signal, fuel) == Ok(v);
      assert phases[k + 1] == phases[1..][k];
    }
  }

  /** A chain that has ended within its budget, every amplifier included, ends the same way with any larger budget. */
  lemma {:induction false} ChainMoreFuel(mem: seq<i32>, phases: seq<i32>, signal: i32, fuel: nat, more: nat)
    requires fuel <= more
    requires Chain(mem, phases, signal, fuel) != Err(Unfinished)
    ensures Chain(mem, phases, signal, more) == Chain(mem, phases, signal, fuel)
    decreases |phases|
  {
    if phases != [] {
      var first := Amplify(mem, phases[0], signal, fuel);
      AmplifyMeaning(mem, phases[0], signal, fuel, more);
      if first.Ok? {
        ChainMoreFuel(mem, phases[1..], first.value, fuel, more);
      }
    }
  }

  /** With no settings the chain passes on the 0 it starts from; with one it is that amplifier fed 0. */
  lemma RunAmplifiersShort(mem: seq<i32>, fuel: nat, p: i32)
    ensures RunAmplifiers(mem, [], fuel) == Ok(0)
    ensures RunAmplifiers(mem, [p], fuel) == Amplify(mem, p, 0, fuel)
  {
    assert [p] != [] && [p][0] == p && [p][1..] == [];
    assert Chain(mem, [p], 0, fuel) == Amplify(mem, p, 0, fuel);
  }

  // ---------------------------------------------------------------------------
  // The chain over the program object
  // ---------------------------------------------------------------------------

  /**
   * Runs one amplifier on a fresh copy of the caller's memory with the
   * program object: queue the phase, then the signal, run, take the first
   * output.
   */
  method AmplifyOn(mem: array<i32>, phase: i32, signal: i32, fuel: nat) returns (r: Result<i32, AmpError>)
    ensures r == Amplify(mem[..], phase, signal, fuel)
  {
    var copy := new i32[mem.Length](i reads mem requires 0 <= i < mem.Length => mem[i]);
    assert copy[..] == mem[..];
    var p := new Program(copy);
    p.AddInputValue(phase);
    p.AddInputValue(signal);
    assert p.State() == Boot(mem[..], phase, signal);
    var how := p.Run(fuel);
    var out := p.Output();
    match how
    case Failed(e) => r := Err(Crashed(e));
    case OutOfFuel => r := Err(Unfinished);
    case Halted =>
      if out == [] {
        r := Err(NoOutput);
      } else {
        r := Ok(out[0]);
      }
  }

  /**
   * The fold over the settings with the program object, stopping at the
   * first amplifier that fails. The caller's memory is only read.
   */
  method Amplifiers(mem: array<i32>, phases: seq<i32>, fuel: nat) returns (r: Result<i32, AmpError>)
    ensures r == RunAmplifiers(mem[..], phases, fuel)
  {
    var signal: i32 := 0;
    var i := 0;
    while i < |phases|
      invariant 0 <= i <= |phases|
      invariant Chain(mem[..], phases[..i], 0, fuel) == Ok(signal)
    {
      var next := AmplifyOn(mem, phases[i], signal, fuel);
      ChainSplit(mem[..], phases[..i], [phases[i]], 0, fuel);
      assert phases[..i] + [phases[i]] == phases[..i + 1];
      assert [phases[i]][1..] == [];
      if next.Err? {
        assert phases == phases[..i + 1] + phases[i + 1..];
        ChainSplit(mem[..], phases[..i + 1], phases[i + 1..], 0, fuel);
        return Err(next.error);
      }
      signal := next.value;
      i := i + 1;
    }
    assert phases[..i] == phases;
    return Ok(signal);
  }

  // ---------------------------------------------------------------------------
  // The best arrangement
  // ---------------------------------------------------------------------------

  function Max(a: i32, b: i32): i32
  {
    if a >= b then a else b
  }

  /**
   * The largest final signal over the arrangements, in order; the first
   * arrangement whose chain stops stops the whole search.
   */
  function Best(mem: seq<i32>, arrangements: seq<seq<i32>>, fuel: nat): Result<i32, AmpError>
    decreases |arrangements|
  {
    if arrangements == [] then Err(NoArrangements)
    else
      var first :- RunAmplifiers(mem, arrangements[0], fuel);
      if |arrangements| == 1 then Ok(first)
      else
        var rest :- Best(mem, arrangements[1..], fuel);
        Ok(Max(first, rest))
  }

  /** Every arrangement's chain went through, with a signal no larger than the best. */
  ghost predicate Bounds(mem: seq<i32>, arrangements: seq<seq<i32>>, fuel: nat, m: i32)
  {
    forall i :: 0 <= i < |arrangements| ==>
      RunAmplifiers(mem, arrangements[i], fuel).Ok? && RunAmplifiers(mem, arrangements[i], fuel).value <= m
  }

  /**
   * The search succeeds exactly when there is an arrangement and every
   * arrangement's chain goes through, and then its result is the largest
   * final signal: at least every one, and reached by one.
   */
  lemma {:induction false} BestIsMaximum(mem: seq<i32>, arrangements: seq<seq<i32>>, fuel: nat)
    ensures Best(mem, arrangements, fuel).Ok? <==>
      arrangements != [] && forall i :: 0 <= i < |arrangements| ==> RunAmplifiers(mem, arrangements[i], fuel).Ok?
    ensures Best(mem, arrangements, fuel).Ok? ==>
      Bounds(mem, arrangements, fuel, Best(mem, arrangements, fuel).value) &&
      exists i :: 0 <= i < |arrangements| && RunAmplifiers(mem, arrangements[i], fuel) == Best(mem, arrangements, fuel)
    decreases |arrangements|
  {
    if |arrangements| > 1 {
      var tail := arrangements[1..];
      BestIsMaximum(mem, tail, fuel);
      forall i | 1 <= i < |arrangements|
        ensures RunAmplifiers(mem, arrangements[i], fuel) == RunAmplifiers(mem, tail[i - 1], fuel)
      {
      }
      var b := Best(mem, arrangements, fuel);
      if b.Ok? {
        var first := RunAmplifiers(mem, arrangements[0], fuel).value;
        var rest := Best(mem, tail, fuel).value;
        var j :| 0 <= j < |tail| && RunAmplifiers(mem, tail[j], fuel) == Best(mem, tail, fuel);
        if first >= rest {
          assert RunAmplifiers(mem, arrangements[0], fuel) == b;
        } else {
          assert RunAmplifiers(mem, arrangements[j + 1], fuel) == b;
        }
      }
    }
  }

  /**
   * A search that stops stops at the first arrangement whose chain stops,
   * with that chain's error, or at an empty list of arrangements.
   */
  lemma {:induction false} BestStops(mem: seq<i32>, arrangements: seq<seq<i32>>, fuel: nat)
    requires Best(mem, arrangements, fuel).Err?
    ensures arrangements == [] <==> Best(mem, arrangements, fuel) == Err(NoArrangements)
    ensures arrangements != [] ==> exists k :: (0 <= k < |arrangements| &&
      RunAmplifiers(mem, arrangements[k], fuel) == Best(mem, arrangements, fuel) &&
      forall i :: 0 <= i < k ==> RunAmplifiers(mem, arrangements[i], fuel).Ok?)
    decreases |arrangements|
  {
    if arrangements != [] {
      ChainNeverNoArrangements(mem, arrangements[0], 0, fuel);
      if RunAmplifiers(mem, arrangements[0], fuel).Err? {
        assert RunAmplifiers(mem, arrangements[0], fuel) == Best(mem, arrangements, fuel);
      } else {
        var tail := arrangements[1..];
        BestStops(mem, tail, fuel);
        var k :| 0 <= k < |tail| && RunAmplifiers(mem, tail[k], fuel) == Best(mem, tail, fuel) &&
          forall i :: 0 <= i < k ==> RunAmplifiers(mem, tail[i], fuel).Ok?;
        forall i | 0 <= i < k + 1
          ensures RunAmplifiers(mem, arrangements[i], fuel).Ok?
        {
          if i > 0 {
            assert arrangements[i] == tail[i - 1];
          }
        }
        assert arrangements[k + 1] == tail[k];
      }
    }
  }

  /** A chain never reports the empty-search error. */
  lemma {:induction false} ChainNeverNoArrangements(mem: seq<i32>, phases: seq<i32>, signal: i32, fuel: nat)
    ensures Chain(mem, phases, signal, fuel) != Err(NoArrangements)
    decreases |phases|
  {
    if phases != [] {
      var first := Amplify(mem, phases[0], signal, fuel);
      if first.Ok? {
        ChainNeverNoArrangements(mem, phases[1..], first.value, fuel);
      }
    }
  }

  /**
   * The best final signal over the arrangements the iterator generates for
   * `s`, in order; an empty `s` generates none, so the maximum is missing.
   */
  function BestArrangement(mem: seq<i32>, s: seq<i32>, fuel: nat): Result<i32, AmpError>
  {
    Best(mem, Permutations.Generated(s), fuel)
  }

  /** `p` uses each element of `s` exactly as often as `s` does. */
  ghost predicate IsArrangement(p: seq<i32>, s: seq<i32>)
  {
    |p| == |s| && multiset(p) == multiset(s)
  }

  /**
   * The best over the generated arrangements of a list is found exactly when
   * the list is not empty and every arrangement's chain goes through; it is
   * then the final signal of some arrangement, and no arrangement gives a
   * larger one. An empty list has no maximum.
   */
  lemma BestOverArrangements(mem: seq<i32>, s: seq<i32>, fuel: nat)
    ensures s == [] ==> BestArrangement(mem, s, fuel) == Err(NoArrangements)
    ensures BestArrangement(mem, s, fuel).Ok? <==>
      s != [] && forall p :: IsArrangement(p, s) ==> RunAmplifiers(mem, p, fuel).Ok?
    ensures BestArrangement(mem, s, fuel).Ok? ==> forall p :: IsArrangement(p, s) ==>
      RunAmplifiers(mem, p, fuel).Ok? && RunAmplifiers(mem, p, fuel).value <= BestArrangement(mem, s, fuel).value
    ensures BestArrangement(mem, s, fuel).Ok? ==>
      exists p :: IsArrangement(p, s) && RunAmplifiers(mem, p, fuel) == BestArrangement(mem, s, fuel)
  {
    if s == [] {
      return;
    }
    var all := Permutations.Perms(s);
    Permutations.PermsCount(s);
    assert all != [];
    BestIsMaximum(mem, all, fuel);
    Permutations.PermsArePermutations(s);
    forall p | IsArrangement(p, s)
      ensures p in all
    {
      Permutations.PermsComplete(s, p);
    }
    if BestArrangement(mem, s, fuel).Ok? {
      var i :| 0 <= i < |all| && RunAmplifiers(mem, all[i], fuel) == Best(mem, all, fuel);
      assert all[i] in all;
    }
  }

  /** The phase settings 0 to 4, in increasing order. */
  function Settings(): (s: seq<i32>)
    ensures |s| == 5 && forall i :: 0 <= i < 5 ==> s[i] == i as i32
  {
    seq(5, i requires 0 <= i < 5 => i as i32)
  }

  /**
   * The best final signal over every arrangement of the phase settings, in
   * the order they are generated; `BestOverArrangements` says what it is.
   */
  function MaxSignal(mem: seq<i32>, fuel: nat): Result<i32, AmpError>
  {
    BestArrangement(mem, Settings(), fuel)
  }
}
