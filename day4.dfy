/**
 * Password rules over the decimal text of a number: the digits never
 * decrease from left to right and some adjacent pair is equal (part one),
 * or some maximal run of equal digits has length exactly two (part two).
 */
module Day4 {
  import opened Decimal

  newtype i32 = x: int | -0x8000_0000 <= x < 0x8000_0000

  /** The text a number prints as: a minus sign before the digits of a negative number. */
  function DecimalText(v: i32): (s: seq<char>)
    ensures |s| >= 1
    ensures 0 <= v < 10 ==> |s| == 1
  {
    if v < 0 then ['-'] + Digits(-(v as int)) else Digits(v as nat)
  }

  ghost predicate NonDecreasing(s: seq<char>)
  {
    forall k :: 0 < k < |s| ==> s[k - 1] <= s[k]
  }

  ghost predicate HasEqualNeighbours(s: seq<char>)
  {
    exists k :: 0 < k < |s| && s[k - 1] == s[k]
  }

  /** Positions k - 1 and k hold a run of equal characters that is exactly two long. */
  ghost predicate ExactPairAt(s: seq<char>, k: int)
  {
    0 < k < |s| && s[k - 1] == s[k] &&
    (k < 2 || s[k - 2] != s[k]) &&
    (k + 1 == |s| || s[k + 1] != s[k])
  }

  ghost predicate HasExactPair(s: seq<char>)
  {
    exists k :: ExactPairAt(s, k)
  }

  ghost predicate Part1(v: i32)
  {
    var s := DecimalText(v);
    NonDecreasing(s) && HasEqualNeighbours(s)
  }

  ghost predicate Part2(v: i32)
  {
    var s := DecimalText(v);
    NonDecreasing(s) && HasExactPair(s)
  }

  /** How many equal neighbours end at position i - 1, that is the length of the run ending there, less one. */
  ghost function TailRun(s: seq<char>, i: nat): nat
    requires 1 <= i <= |s|
  {
    if i >= 2 && s[i - 2] == s[i - 1] then 1 + TailRun(s, i - 1) else 0
  }

  /** Some run of exactly two has closed before position i - 1. */
  ghost predicate ClosedPairBefore(s: seq<char>, i: int)
  {
    exists k :: k + 1 < i && ExactPairAt(s, k)
  }

  lemma ClosedPairStep(s: seq<char>, i: int)
    ensures ClosedPairBefore(s, i + 1) <==> ClosedPairBefore(s, i) || ExactPairAt(s, i - 1)
  {
    if ClosedPairBefore(s, i + 1) {
      var k :| k + 1 < i + 1 && ExactPairAt(s, k);
      assert k + 1 < i || k == i - 1;
    }
  }

  /** Where a run closes, it was exactly two long iff one pair of equal neighbours ended there. */
  lemma {:induction false} RunCloses(s: seq<char>, i: nat)
    requires 1 <= i <= |s|
    requires i == |s| || s[i - 1] != s[i]
    ensures ExactPairAt(s, i - 1) <==> TailRun(s, i) == 1
  {
    if i >= 2 && s[i - 2] == s[i - 1] {
      assert TailRun(s, i) == 1 + TailRun(s, i - 1);
      assert TailRun(s, i - 1) == 0 <==> (i < 3 || s[i - 3] != s[i - 2]);
    }
  }

  /** Part one: scans neighbouring digits, giving up at the first decrease. */
  method CheckPart1(v: i32) returns (ok: bool)
    ensures ok <==> Part1(v)
  {
    var s := DecimalText(v);
    var consecutive := false;
    for i := 1 to |s|
      invariant forall k :: 0 < k < i ==> s[k - 1] <= s[k]
      invariant consecutive <==> exists k :: 0 < k < i && s[k - 1] == s[k]
    {
      if s[i - 1] > s[i] {
        return false;
      }
      if s[i - 1] == s[i] {
        consecutive := true;
      }
    }
    return consecutive;
  }

  /**
   * Part two: tracks the length of the current run of equal digits and
   * notes a run of exactly two when it closes, or when the text ends.
   */
  method CheckPart2(v: i32) returns (ok: bool)
    ensures ok <==> Part2(v)
  {
    var s := DecimalText(v);
    assert Part2(v) <==> NonDecreasing(s) && HasExactPair(s);
    var consecutive := false;
    var repeatedDigit: char := 0 as char;
    var repeatedCount: nat := 0;
    for i := 1 to |s|
      invariant forall k :: 0 < k < i ==> s[k - 1] <= s[k]
      invariant repeatedCount == TailRun(s, i)
      invariant repeatedCount > 0 ==> repeatedDigit == s[i - 1]
      invariant consecutive <==> ClosedPairBefore(s, i)
    {
      if s[i - 1] > s[i] {
        assert !NonDecreasing(s) by { assert !(s[i - 1] <= s[i]); }
        return false;
      }
      if s[i - 1] == s[i] {
        assert TailRun(s, i + 1) == 1 + TailRun(s, i);
        assert ClosedPairBefore(s, i + 1) <==> ClosedPairBefore(s, i) by {
          ClosedPairStep(s, i);
        }
        repeatedDigit := s[i];
        repeatedCount := repeatedCount + 1;
      } else {
        assert TailRun(s, i + 1) == 0;
        assert ClosedPairBefore(s, i + 1) <==> ClosedPairBefore(s, i) || TailRun(s, i) == 1 by {
          ClosedPairStep(s, i);
          RunCloses(s, i);
        }
        if repeatedCount == 1 && repeatedDigit == s[i - 1] {
          consecutive := true;
        }
        repeatedDigit := 0 as char;
        repeatedCount := 0;
      }
    }
    assert HasExactPair(s) <==> consecutive || repeatedCount == 1 by {
      RunCloses(s, |s|);
      ClosedPairStep(s, |s|);
      AllPairsClosed(s);
    }
    ok := consecutive || repeatedCount == 1;
  }

  /** Once the text has ended, every run of exactly two has closed. */
  lemma AllPairsClosed(s: seq<char>)
    ensures ClosedPairBefore(s, |s| + 1) <==> HasExactPair(s)
  {
    if HasExactPair(s) {
      var k :| ExactPairAt(s, k);
      assert k + 1 < |s| + 1;
    }
  }

  /** A run of exactly two is in particular a pair of equal neighbours. */
  lemma Part2ImpliesPart1(v: i32)
    requires Part2(v)
    ensures Part1(v)
  {
    var s := DecimalText(v);
    var k :| ExactPairAt(s, k);
    assert 0 < k < |s| && s[k - 1] == s[k];
  }

  /** A single digit has no neighbours, so it fails both rules. */
  lemma SingleDigitFails(v: i32)
    requires 0 <= v < 10
    ensures !Part1(v) && !Part2(v)
  {
  }

  // ---------------------------------------------------------------------------
  // Counting over a range
  // ---------------------------------------------------------------------------

  /** How many v in [lo, hi) satisfy part one, respectively part two. */
  ghost function CountPart(lo: int, hi: int, part2: bool): nat
    requires -0x8000_0000 <= lo && hi <= 0x8000_0000
    decreases hi - lo
  {
    if lo >= hi then 0
    else CountPart(lo, hi - 1, part2) + (if (if part2 then Part2((hi - 1) as i32) else Part1((hi - 1) as i32)) then 1 else 0)
  }

  /** Counts the numbers in [lo, hi) that pass the chosen check. */
  method Count(lo: i32, hi: i32, part2: bool) returns (n: nat)
    ensures n == CountPart(lo as int, hi as int, part2)
  {
    n := 0;
    var v := lo;
    if hi <= lo {
      return;
    }
    while v < hi
      invariant lo <= v <= hi
      invariant n == CountPart(lo as int, v as int, part2)
    {
      var ok;
      if part2 {
        ok := CheckPart2(v);
      } else {
        ok := CheckPart1(v);
      }
      CountStep(lo as int, v as int, part2, ok);
      if ok {
        n := n + 1;
      }
      v := v + 1;
    }
  }

  /** Extending the range by one number adds one exactly when that number passes. */
  lemma CountStep(lo: int, v: int, part2: bool, ok: bool)
    requires -0x8000_0000 <= lo <= v < 0x8000_0000
    requires ok <==> if part2 then Part2(v as i32) else Part1(v as i32)
    ensures CountPart(lo, v + 1, part2) == CountPart(lo, v, part2) + (if ok then 1 else 0)
  {
  }

  /** Every number passing part two passes part one, so part two never counts more. */
  lemma {:induction false} CountPart2AtMostPart1(lo: int, hi: int)
    requires -0x8000_0000 <= lo && hi <= 0x8000_0000
    ensures CountPart(lo, hi, true) <= CountPart(lo, hi, false)
    decreases hi - lo
  {
    if lo < hi {
      CountPart2AtMostPart1(lo, hi - 1);
      if Part2((hi - 1) as i32) {
        Part2ImpliesPart1((hi - 1) as i32);
      }
    }
  }

  /** No more numbers pass than the range holds. */
  lemma {:induction false} CountAtMostRange(lo: int, hi: int, part2: bool)
    requires -0x8000_0000 <= lo && hi <= 0x8000_0000
    ensures lo <= hi ==> CountPart(lo, hi, part2) <= hi - lo
    ensures lo >= hi ==> CountPart(lo, hi, part2) == 0
    decreases hi - lo
  {
    if lo < hi {
      CountAtMostRange(lo, hi - 1, part2);
    }
  }

  /** The puzzle's range: the passwords from 272091 up to, not including, 815432. */
  method CountPuzzleRange() returns (part1: nat, part2: nat)
    ensures part1 == CountPart(272_091, 815_432, false)
    ensures part2 == CountPart(272_091, 815_432, true)
    ensures part2 <= part1
  {
    part1 := Count(272_091, 815_432, false);
    part2 := Count(272_091, 815_432, true);
    CountPart2AtMostPart1(272_091, 815_432);
  }
}
