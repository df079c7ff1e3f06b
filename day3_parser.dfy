/**
 * The wire description grammar: a section is one of the letters U, D, L, R
 * followed by a decimal length; a line is sections separated by commas; the
 * input is two lines separated by a line feed or a carriage return and line
 * feed. Each parser takes the remaining input and, on success, gives back
 * what is left after it. A failure records whether input was consumed
 * first, since that decides whether an alternative or the end of a
 * separated list is tried instead.
 */
module Day3Parser {
  import opened Decimal

  const I32_MAX: int := 0x7fff_ffff

  /** A section as a displacement (dx, dy). */
  type Move = (int, int)

  datatype Reply<T> =
    | Parsed(value: T, rest: seq<char>)    // success, and the input left after it
    | Failed(consumed: bool)               // no match; `consumed` if input was used up first
    | LengthTooLarge                       // a length beyond i32, on which the parser panics

  predicate IsDigit(c: char) { '0' <= c <= '9' }

  predicate IsDirection(c: char) { c == 'U' || c == 'D' || c == 'L' || c == 'R' }

  /** The unit step a direction letter stands for. */
  function Unit(c: char): (u: Move)
    requires IsDirection(c)
    ensures (u.0 == 0) != (u.1 == 0) && -1 <= u.0 <= 1 && -1 <= u.1 <= 1
  {
    match c
    case 'U' => (0, 1)
    case 'D' => (0, -1)
    case 'L' => (-1, 0)
    case 'R' => (1, 0)
  }

  /** The longest run of digits at the front of `s`. */
  function DigitRun(s: seq<char>): (n: nat)
    ensures n <= |s|
    ensures forall k :: 0 <= k < n ==> IsDigit(s[k])
    ensures n == |s| || !IsDigit(s[n])
  {
    if s != [] && IsDigit(s[0]) then 1 + DigitRun(s[1..]) else 0
  }

  /** The number a string of decimal digits denotes. */
  function DecimalValue(ds: seq<char>): int
  {
    if ds == [] then 0
    else DecimalValue(ds[..|ds| - 1]) * 10 + (ds[|ds| - 1] as int - '0' as int)
  }

  /** A direction letter and at least one digit; the digits must denote a value within i32. */
  function Section(s: seq<char>): (r: Reply<Move>)
    ensures r.Parsed? ==> |r.rest| + 2 <= |s| && (r.value.0 == 0 || r.value.1 == 0)
  {
    if s == [] || !IsDirection(s[0]) then Failed(false)
    else
      var n := DigitRun(s[1..]);
      if n == 0 then Failed(true)
      else
        var len := DecimalValue(s[1..1 + n]);
        if len > I32_MAX then LengthTooLarge
        else
          var u := Unit(s[0]);
          Parsed((u.0 * len, u.1 * len), s[1 + n..])
  }

  /** Further sections, each after a comma; a comma commits to a section after it. */
  function LineTail(s: seq<char>, acc: seq<Move>): (r: Reply<seq<Move>>)
    ensures r.Parsed? ==> |r.rest| <= |s| && acc <= r.value
    decreases |s|
  {
    if s != [] && s[0] == ',' then
      match Section(s[1..])
      case Parsed(move, rest) => LineTail(rest, acc + [move])
      case Failed(_) => Failed(true)
      case LengthTooLarge => LengthTooLarge
    else Parsed(acc, s)
  }

  /** A comma-separated list of sections, possibly empty. */
  function Line(s: seq<char>): (r: Reply<seq<Move>>)
    ensures r.Parsed? ==> |r.rest| <= |s|
  {
    match Section(s)
    case Parsed(move, rest) => LineTail(rest, [move])
    case Failed(consumed) => if consumed then Failed(true) else Parsed([], s)
    case LengthTooLarge => LengthTooLarge
  }

  /** A line feed, or a carriage return that must be followed by a line feed. */
  function LineBreak(s: seq<char>): (r: Reply<()>)
    ensures r.Parsed? ==> (|s| >= 1 && r.rest == s[1..]) || (|s| >= 2 && r.rest == s[2..])
  {
    if s != [] && s[0] == '\n' then Parsed((), s[1..])
    else if s != [] && s[0] == '\r' then
      if |s| >= 2 && s[1] == '\n' then Parsed((), s[2..]) else Failed(true)
    else Failed(false)
  }

  /** Two lines and the break between them; input after the second line is left unread. */
  function Wires(s: seq<char>): (r: Reply<(seq<Move>, seq<Move>)>)
  {
    match Line(s)
    case Failed(c) => Failed(c)
    case LengthTooLarge => LengthTooLarge
    case Parsed(first, afterFirst) =>
      match LineBreak(afterFirst)
      case Failed(c) => Failed(c || |afterFirst| < |s|)
      case LengthTooLarge => LengthTooLarge
      case Parsed(_, beforeSecond) =>
        match Line(beforeSecond)
        case Failed(_) => Failed(true)
        case LengthTooLarge => LengthTooLarge
        case Parsed(second, rest) => Parsed((first, second), rest)
  }

  // ---------------------------------------------------------------------------
  // Properties of a section
  // ---------------------------------------------------------------------------

  /** A leading byte other than U, D, L and R fails without consuming input; so does no input. */
  lemma SectionNeedsDirection(s: seq<char>)
    requires s == [] || !IsDirection(s[0])
    ensures Section(s) == Failed(false)
    ensures Line(s) == Parsed([], s)
  {
  }

  /** A direction letter without a digit after it fails after consuming the letter. */
  lemma SectionNeedsDigit(s: seq<char>)
    requires |s| >= 1 && IsDirection(s[0]) && (|s| == 1 || !IsDigit(s[1]))
    ensures Section(s) == Failed(true)
    ensures Line(s) == Failed(true)
  {
  }

  /**
   * A parsed section is the unit step of its letter scaled by the value of
   * all the digits after it, up to the first non-digit.
   */
  lemma SectionValue(s: seq<char>)
    requires Section(s).Parsed?
    ensures var r := Section(s);
      var n := |s| - 1 - |r.rest|;
      IsDirection(s[0]) && n >= 1 && (forall k :: 1 <= k <= n ==> IsDigit(s[k])) &&
      r.rest == s[1 + n..] && (r.rest == [] || !IsDigit(r.rest[0])) &&
      var len := DecimalValue(s[1..1 + n]);
      len <= I32_MAX && r.value == (Unit(s[0]).0 * len, Unit(s[0]).1 * len)
  {
    var n := DigitRun(s[1..]);
    assert forall k :: 1 <= k <= n ==> s[k] == s[1..][k - 1];
  }

  // ---------------------------------------------------------------------------
  // Printing, and parsing what was printed
  // ---------------------------------------------------------------------------

  /** Printing a number and reading the digits back gives the number, and only digits are printed. */
  lemma {:induction false} DecimalRoundTrip(n: nat)
    ensures DecimalValue(Digits(n)) == n
    ensures forall k :: 0 <= k < |Digits(n)| ==> IsDigit(Digits(n)[k])
  {
    var ds := Digits(n);
    if n >= 10 {
      DecimalRoundTrip(n / 10);
      assert ds[..|ds| - 1] == Digits(n / 10);
      forall k | 0 <= k < |ds|
        ensures IsDigit(ds[k])
      {
        if k < |ds| - 1 {
          assert ds[k] == Digits(n / 10)[k];
        }
      }
    }
  }

  /** A run of digits followed by a non-digit is exactly the digit run at the front. */
  lemma {:induction false} DigitRunOf(ds: seq<char>, r: seq<char>)
    requires forall k :: 0 <= k < |ds| ==> IsDigit(ds[k])
    requires r == [] || !IsDigit(r[0])
    ensures DigitRun(ds + r) == |ds|
    decreases |ds|
  {
    if ds != [] {
      assert (ds + r)[1..] == ds[1..] + r;
      DigitRunOf(ds[1..], r);
    }
  }

  /** A move along one axis whose length fits in an i32. */
  predicate Printable(m: Move)
  {
    (m.0 == 0 || m.1 == 0) && -I32_MAX <= m.0 <= I32_MAX && -I32_MAX <= m.1 <= I32_MAX
  }

  /** The length of an axis-aligned move. */
  function MoveLength(m: Move): nat
  {
    if m.0 == 0 && m.1 >= 0 then m.1 else if m.0 == 0 then -m.1 else if m.0 < 0 then -m.0 else m.0
  }

  /** The letter a move prints with; a zero move prints as U0. */
  function Letter(m: Move): (c: char)
    ensures IsDirection(c)
    ensures Printable(m) ==> (Unit(c).0 * MoveLength(m), Unit(c).1 * MoveLength(m)) == m
  {
    if m.0 == 0 && m.1 >= 0 then 'U' else if m.0 == 0 then 'D' else if m.0 < 0 then 'L' else 'R'
  }

  /**
   * The text of a section, followed by the text `r`; only a printable move
   * reads back as itself.
   */
  function ShowSection(m: Move, r: seq<char>): seq<char>
  {
    [Letter(m)] + (Digits(MoveLength(m)) + r)
  }

  /** The text of a line, its sections joined by commas, followed by the text `r`. */
  function ShowLine(w: seq<Move>, r: seq<char>): seq<char>
  {
    if w == [] then r else ShowSection(w[0], ShowTail(w[1..], r))
  }

  /** The text of further sections, each after a comma, followed by the text `r`. */
  function ShowTail(w: seq<Move>, r: seq<char>): seq<char>
  {
    if w == [] then r else [','] + ShowSection(w[0], ShowTail(w[1..], r))
  }

  /** Text that can follow a line: it starts with no digit, comma or direction letter. */
  predicate EndsLine(r: seq<char>)
  {
    r == [] || !(IsDigit(r[0]) || r[0] == ',' || IsDirection(r[0]))
  }

  /** A direction letter and a run of digits whose value fits in an i32 make a section. */
  lemma SectionOf(s: seq<char>, n: nat)
    requires s != [] && IsDirection(s[0])
    requires DigitRun(s[1..]) == n >= 1 && DecimalValue(s[1..1 + n]) <= I32_MAX
    ensures var len := DecimalValue(s[1..1 + n]);
      Section(s) == Parsed((Unit(s[0]).0 * len, Unit(s[0]).1 * len), s[1 + n..])
  {
  }

  /** A printed section, followed by anything that does not start with a digit, parses back to the move. */
  lemma {:induction false} SectionRoundTrip(m: Move, r: seq<char>)
    requires Printable(m)
    requires r == [] || !IsDigit(r[0])
    ensures Section(ShowSection(m, r)) == Parsed(m, r)
  {
    var len := MoveLength(m);
    var ds := Digits(len);
    var s := ShowSection(m, r);
    assert s[0] == Letter(m) && s[1..] == ds + r;
    assert s[1..1 + |ds|] == ds && s[1 + |ds|..] == r by {
      assert (ds + r)[..|ds|] == ds && (ds + r)[|ds|..] == r;
    }
    assert DigitRun(s[1..]) == |ds| && DecimalValue(s[1..1 + |ds|]) == len by {
      DecimalRoundTrip(len);
      DigitRunOf(ds, r);
    }
    var c := Letter(m);
    assert Section(s) == Parsed((Unit(c).0 * len, Unit(c).1 * len), r) by {
      assert s != [] && IsDirection(s[0]);
      assert |ds| >= 1 && len <= I32_MAX;
      SectionOf(s, |ds|);
    }
  }

  /** Printed comma-separated sections followed by a line end never start with a digit. */
  lemma TailStart(w: seq<Move>, r: seq<char>)
    requires EndsLine(r)
    ensures var s := ShowTail(w, r); s == [] || !IsDigit(s[0])
  {
  }

  /** After a comma and a section, the list goes on from the end of the section. */
  lemma LineTailStep(s: seq<char>, acc: seq<Move>, m: Move, rest: seq<char>)
    requires s != [] && s[0] == ',' && Section(s[1..]) == Parsed(m, rest)
    ensures LineTail(s, acc) == LineTail(rest, acc + [m])
  {
  }

  lemma AppendHead<T>(acc: seq<T>, w: seq<T>)
    requires w != []
    ensures acc + [w[0]] + w[1..] == acc + w
  {
  }

  /** Printed comma-separated sections, then text that ends a line, parse back in order. */
  lemma {:induction false} LineTailRoundTrip(w: seq<Move>, r: seq<char>, acc: seq<Move>)
    requires forall k :: 0 <= k < |w| ==> Printable(w[k])
    requires EndsLine(r)
    ensures LineTail(ShowTail(w, r), acc) == Parsed(acc + w, r)
    decreases |w|
  {
    if w == [] {
      assert acc + w == acc;
    } else {
      var more := ShowTail(w[1..], r);
      TailStart(w[1..], r);
      SectionRoundTrip(w[0], more);
      LineTailStep(ShowTail(w, r), acc, w[0], more);
      LineTailRoundTrip(w[1..], r, acc + [w[0]]);
      AppendHead(acc, w);
    }
  }

  /** A printed line followed by text that ends a line parses back to the same sections. */
  lemma {:induction false} LineRoundTrip(w: seq<Move>, r: seq<char>)
    requires forall k :: 0 <= k < |w| ==> Printable(w[k])
    requires EndsLine(r)
    ensures Line(ShowLine(w, r)) == Parsed(w, r)
  {
    if w != [] {
      var more := ShowTail(w[1..], r);
      TailStart(w[1..], r);
      SectionRoundTrip(w[0], more);
      assert Line(ShowLine(w, r)) == LineTail(more, [w[0]]);
      LineTailRoundTrip(w[1..], r, [w[0]]);
      AppendHead([], w);
      assert [] + [w[0]] == [w[0]] && [] + w == w;
    }
  }

  /**
   * Two printed lines joined by a line feed, or by a carriage return and a
   * line feed, parse back to the pair of lines; what follows is left.
   */
  lemma {:induction false} WiresRoundTrip(w1: seq<Move>, w2: seq<Move>, sep: seq<char>, r: seq<char>)
    requires forall k :: 0 <= k < |w1| ==> Printable(w1[k])
    requires forall k :: 0 <= k < |w2| ==> Printable(w2[k])
    requires sep == "\n" || sep == "\r\n"
    requires EndsLine(r)
    ensures Wires(ShowLine(w1, sep + ShowLine(w2, r))) == Parsed((w1, w2), r)
  {
    var second := ShowLine(w2, r);
    var afterFirst := sep + second;
    LineRoundTrip(w1, afterFirst);
    assert afterFirst[|sep|..] == second;
    assert LineBreak(afterFirst) == Parsed((), second);
    LineRoundTrip(w2, r);
  }

  // ---------------------------------------------------------------------------
  // Examples
  // ---------------------------------------------------------------------------

  /** Printing the lengths of the parser's examples. */
  lemma DigitExamples()
    ensures Digits(19) == "19" && Digits(5) == "5" && Digits(1) == "1"
    ensures Digits(4096) == "4096"
  {
    assert Digits(40) == "40";
    assert Digits(409) == "409";
  }

  /** The sections of the parser's examples, printed before the text `r`. */
  lemma ShowSectionExample(m: Move, text: seq<char>, r: seq<char>)
    requires (m, text) in [((0, 19), "U19"), ((0, -5), "D5"), ((-1, 0), "L1"), ((4096, 0), "R4096")]
    ensures ShowSection(m, r) == text + r
  {
    DigitExamples();
  }

  lemma SectionExamples()
    ensures Section("U19") == Parsed((0, 19), [])
    ensures Section("D5") == Parsed((0, -5), [])
    ensures Section("L1") == Parsed((-1, 0), [])
    ensures Section("R4096") == Parsed((4096, 0), [])
  {
    ShowSectionExample((0, 19), "U19", []);
    ShowSectionExample((0, -5), "D5", []);
    ShowSectionExample((-1, 0), "L1", []);
    ShowSectionExample((4096, 0), "R4096", []);
    assert "U19" + [] == "U19" && "D5" + [] == "D5" && "L1" + [] == "L1" && "R4096" + [] == "R4096";
    SectionRoundTrip((0, 19), []);
    SectionRoundTrip((0, -5), []);
    SectionRoundTrip((-1, 0), []);
    SectionRoundTrip((4096, 0), []);
  }

  /** A line is its first section followed by the rest. */
  lemma ShowLineCons(m: Move, w: seq<Move>, r: seq<char>)
    ensures ShowLine([m] + w, r) == ShowSection(m, ShowTail(w, r))
  {
    assert ([m] + w)[1..] == w;
  }

  /** Further sections are a comma, a section, and the rest. */
  lemma ShowTailCons(m: Move, w: seq<Move>, r: seq<char>)
    ensures ShowTail([m] + w, r) == [','] + ShowSection(m, ShowTail(w, r))
  {
    assert ([m] + w)[1..] == w;
  }

  /** Further sections starting with one of the example sections. */
  lemma ShowTailExample(m: Move, text: seq<char>, w: seq<Move>, r: seq<char>)
    requires (m, text) in [((0, 19), "U19"), ((0, -5), "D5"), ((-1, 0), "L1"), ((4096, 0), "R4096")]
    ensures ShowTail([m] + w, r) == [','] + text + ShowTail(w, r)
  {
    ShowTailCons(m, w, r);
    ShowSectionExample(m, text, ShowTail(w, r));
  }

  /** A line starting with one of the example sections. */
  lemma ShowLineExample(m: Move, text: seq<char>, w: seq<Move>, r: seq<char>)
    requires (m, text) in [((0, 19), "U19"), ((0, -5), "D5"), ((-1, 0), "L1"), ((4096, 0), "R4096")]
    ensures ShowLine([m] + w, r) == text + ShowTail(w, r)
  {
    ShowLineCons(m, w, r);
    ShowSectionExample(m, text, ShowTail(w, r));
  }

  /** The first wire of the parser's example, printed before the text `r`. */
  lemma ShowFirstWire(r: seq<char>)
    ensures ShowLine([(0, 19), (-1, 0), (0, -5), (4096, 0)], r) == "U19,L1,D5,R4096" + r
  {
    assert ShowLine([(0, 19), (-1, 0), (0, -5), (4096, 0)], r) ==
      "U19" + ([','] + "L1") + ([','] + "D5") + ([','] + "R4096") + r by {
      assert [(0, 19), (-1, 0), (0, -5), (4096, 0)] == [(0, 19)] + ([(-1, 0)] + ([(0, -5)] + ([(4096, 0)] + [])));
      ShowLineExample((0, 19), "U19", [(-1, 0)] + ([(0, -5)] + ([(4096, 0)] + [])), r);
      ShowTailExample((-1, 0), "L1", [(0, -5)] + ([(4096, 0)] + []), r);
      ShowTailExample((0, -5), "D5", [(4096, 0)] + [], r);
      ShowTailExample((4096, 0), "R4096", [], r);
      Regroup("U19", [','] + "L1", [','] + "D5", [','] + "R4096", r);
    }
    FirstWireText();
  }

  lemma FirstWireText()
    ensures "U19" + ([','] + "L1") + ([','] + "D5") + ([','] + "R4096") == "U19,L1,D5,R4096"
  {
  }

  /** The second wire, the first reversed, printed before the text `r`. */
  lemma ShowSecondWire(r: seq<char>)
    ensures ShowLine([(4096, 0), (0, -5), (-1, 0), (0, 19)], r) == "R4096,D5,L1,U19" + r
  {
    assert ShowLine([(4096, 0), (0, -5), (-1, 0), (0, 19)], r) ==
      "R4096" + ([','] + "D5") + ([','] + "L1") + ([','] + "U19") + r by {
      assert [(4096, 0), (0, -5), (-1, 0), (0, 19)] == [(4096, 0)] + ([(0, -5)] + ([(-1, 0)] + ([(0, 19)] + [])));
      ShowLineExample((4096, 0), "R4096", [(0, -5)] + ([(-1, 0)] + ([(0, 19)] + [])), r);
      ShowTailExample((0, -5), "D5", [(-1, 0)] + ([(0, 19)] + []), r);
      ShowTailExample((-1, 0), "L1", [(0, 19)] + [], r);
      ShowTailExample((0, 19), "U19", [], r);
      Regroup("R4096", [','] + "D5", [','] + "L1", [','] + "U19", r);
    }
    SecondWireText();
  }

  lemma SecondWireText()
    ensures "R4096" + ([','] + "D5") + ([','] + "L1") + ([','] + "U19") == "R4096,D5,L1,U19"
  {
  }

  lemma Regroup<T>(a: seq<T>, b: seq<T>, c: seq<T>, d: seq<T>, r: seq<T>)
    ensures a + (b + (c + (d + r))) == a + b + c + d + r
  {
  }

  lemma WiresText()
    ensures "U19,L1,D5,R4096" + (['\n'] + "R4096,D5,L1,U19") == "U19,L1,D5,R4096\nR4096,D5,L1,U19"
  {
  }

  lemma LineExample()
    ensures Line("U19,L1,D5,R4096") == Parsed([(0, 19), (-1, 0), (0, -5), (4096, 0)], [])
  {
    ShowFirstWire([]);
    assert "U19,L1,D5,R4096" + [] == "U19,L1,D5,R4096";
    LineRoundTrip([(0, 19), (-1, 0), (0, -5), (4096, 0)], []);
  }

  lemma WiresExample()
    ensures Wires("U19,L1,D5,R4096\nR4096,D5,L1,U19") ==
      Parsed(([(0, 19), (-1, 0), (0, -5), (4096, 0)], [(4096, 0), (0, -5), (-1, 0), (0, 19)]), [])
  {
    var w1 := [(0, 19), (-1, 0), (0, -5), (4096, 0)];
    var w2 := [(4096, 0), (0, -5), (-1, 0), (0, 19)];
    assert ShowLine(w1, ['\n'] + ShowLine(w2, [])) == "U19,L1,D5,R4096\nR4096,D5,L1,U19" by {
      ExampleText();
    }
    assert Wires(ShowLine(w1, ['\n'] + ShowLine(w2, []))) == Parsed((w1, w2), []) by {
      ExamplePrintable();
      WiresRoundTrip(w1, w2, "\n", []);
    }
  }

  lemma ExampleText()
    ensures ShowLine([(0, 19), (-1, 0), (0, -5), (4096, 0)], ['\n'] + ShowLine([(4096, 0), (0, -5), (-1, 0), (0, 19)], [])) ==
      "U19,L1,D5,R4096\nR4096,D5,L1,U19"
  {
    var second := ShowLine([(4096, 0), (0, -5), (-1, 0), (0, 19)], []);
    assert second == "R4096,D5,L1,U19" by {
      ShowSecondWire([]);
      assert "R4096,D5,L1,U19" + [] == "R4096,D5,L1,U19";
    }
    ShowFirstWire(['\n'] + second);
    WiresText();
  }

  lemma ExamplePrintable()
    ensures var w1 := [(0, 19), (-1, 0), (0, -5), (4096, 0)];
      forall k :: 0 <= k < |w1| ==> Printable(w1[k])
    ensures var w2 := [(4096, 0), (0, -5), (-1, 0), (0, 19)];
      forall k :: 0 <= k < |w2| ==> Printable(w2[k])
  {
  }
}
