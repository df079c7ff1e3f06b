/**
 * The example wires of the crossed-wires puzzle, laid out, crossed and
 * searched. Each starts from the moves the parser gives for the example's
 * text; the long examples take their moves as parameters fixed by the
 * precondition, which keeps the verifier from evaluating the whole search
 * on literal arguments.
 */
module Day3Examples {
  import opened Wrappers
  import opened Day3

  /**
   * The four mirror images of the wires "U10,L15" and "L10,U15" (up or down,
   * left or right): the only crossing past the first sections lies at
   * (10, 10) mirrored, and both wires walk 20 to reach it, 40 in all.
   */
  lemma ShortestMirrorExamples(sx: int, sy: int)
    requires sx == 1 || sx == -1
    requires sy == 1 || sy == -1
    ensures var xs := FindIntersections(IntoAbsoluteCoords([(0, 10 * sy), (15 * sx, 0)]),
                                        IntoAbsoluteCoords([(10 * sx, 0), (0, 15 * sy)]));
      xs == [Intersection(Position(10 * sx, 10 * sy), 40)] && FindShortestStart(xs).dist == 40
  {
    var w1, w2 := [(0, 10 * sy), (15 * sx, 0)], [(10 * sx, 0), (0, 15 * sy)];
    var s1, s2 := IntoAbsoluteCoords(w1), IntoAbsoluteCoords(w2);
    assert Steps(w1[0]) == 10 && Steps(w2[0]) == 10;
    assert w1[1..] == [(15 * sx, 0)] && w2[1..] == [(0, 15 * sy)];
    assert Trace(w1[1..], Position(0, 10 * sy), 10) == [Section(Position(0, 10 * sy), Position(15 * sx, 10 * sy), 10)];
    assert Trace(w2[1..], Position(10 * sx, 0), 10) == [Section(Position(10 * sx, 0), Position(10 * sx, 15 * sy), 10)];
    assert s1 == [Section(ORIGIN, Position(0, 10 * sy), 0),
                  Section(Position(0, 10 * sy), Position(15 * sx, 10 * sy), 10)];
    assert s2 == [Section(ORIGIN, Position(10 * sx, 0), 0),
                  Section(Position(10 * sx, 0), Position(10 * sx, 15 * sy), 10)];
    var x := Intersection(Position(10 * sx, 10 * sy), 40);
    assert Meet(s1[1], s2[1]) == Some(x);
    assert Row(s1[1], s2[1..]) == [x];
    assert AllRows(s1[1..], s2[1..]) == [x];
    assert FindShortestStart([x]) == x;
  }

  /**
   * The wires "U3,L5" and "L2,U1,R1,U1,L1,U3": the second wire's last
   * section crosses the first's at (-2, 3), after 3 + 2 and 6 + 1 steps,
   * so part two gives 12.
   */
  lemma ShortestStaircaseExample()
    ensures var xs := FindIntersections(IntoAbsoluteCoords([(0, 3), (-5, 0)]),
                                        IntoAbsoluteCoords([(-2, 0), (0, 1), (1, 0), (0, 1), (-1, 0), (0, 3)]));
      xs == [Intersection(Position(-2, 3), 12)] && FindShortestStart(xs).dist == 12
  {
    var h := Section(Position(0, 3), Position(-5, 3), 3);
    var s1 := IntoAbsoluteCoords([(0, 3), (-5, 0)]);
    assert s1 == [Section(ORIGIN, Position(0, 3), 0), h];
    var s2 := StaircaseLayout();
    var rest := s2[1..];
    var x := Intersection(Position(-2, 3), 12);
    StaircaseRow();
    assert Row(h, rest) == [x];
    assert s1[1..] == [h] && [h][1..] == [];
    assert AllRows([h], rest) == Row(h, rest) + AllRows([], rest);
    assert FindIntersections(s1, s2) == [x];
    assert FindShortestStart([x]) == x;
  }

  /** The sections of the wire "L2,U1,R1,U1,L1,U3". */
  lemma StaircaseLayout() returns (r: seq<Section>)
    ensures r == IntoAbsoluteCoords([(-2, 0), (0, 1), (1, 0), (0, 1), (-1, 0), (0, 3)])
    ensures r == [Section(ORIGIN, Position(-2, 0), 0),
                  Section(Position(-2, 0), Position(-2, 1), 2),
                  Section(Position(-2, 1), Position(-1, 1), 3),
                  Section(Position(-1, 1), Position(-1, 2), 4),
                  Section(Position(-1, 2), Position(-2, 2), 5),
                  Section(Position(-2, 2), Position(-2, 5), 6)]
  {
    var w := [(-2, 0), (0, 1), (1, 0), (0, 1), (-1, 0), (0, 3)];
    r := [Section(ORIGIN, Position(-2, 0), 0),
          Section(Position(-2, 0), Position(-2, 1), 2),
          Section(Position(-2, 1), Position(-1, 1), 3),
          Section(Position(-1, 1), Position(-1, 2), 4),
          Section(Position(-1, 2), Position(-2, 2), 5),
          Section(Position(-2, 2), Position(-2, 5), 6)];
    assert Trace(w[5..], Position(-2, 2), 6) == r[5..];
    assert Trace(w[4..], Position(-1, 2), 5) == r[4..];
    assert Trace(w[3..], Position(-1, 1), 4) == r[3..];
    assert Trace(w[2..], Position(-2, 1), 3) == r[2..];
    assert Trace(w[1..], Position(-2, 0), 2) == r[1..];
  }

  /** The first wire's second section against the staircase's sections after the first: one crossing, on the last. */
  lemma StaircaseRow()
    ensures Row(Section(Position(0, 3), Position(-5, 3), 3),
                [Section(Position(-2, 0), Position(-2, 1), 2),
                 Section(Position(-2, 1), Position(-1, 1), 3),
                 Section(Position(-1, 1), Position(-1, 2), 4),
                 Section(Position(-1, 2), Position(-2, 2), 5),
                 Section(Position(-2, 2), Position(-2, 5), 6)]) == [Intersection(Position(-2, 3), 12)]
  {
    var h := Section(Position(0, 3), Position(-5, 3), 3);
    var rest := [Section(Position(-2, 0), Position(-2, 1), 2),
                 Section(Position(-2, 1), Position(-1, 1), 3),
                 Section(Position(-1, 1), Position(-1, 2), 4),
                 Section(Position(-1, 2), Position(-2, 2), 5),
                 Section(Position(-2, 2), Position(-2, 5), 6)];
    var x := Intersection(Position(-2, 3), 12);
    assert Meet(h, rest[4]) == Some(x);
    assert Row(h, rest[4..]) == [x];
    assert Meet(h, rest[3]) == None;
    assert Row(h, rest[3..]) == [x];
    assert Meet(h, rest[2]) == None;
    assert Row(h, rest[2..]) == [x];
    assert Meet(h, rest[1]) == None;
    assert Row(h, rest[1..]) == [x];
    assert Meet(h, rest[0]) == None;
  }

  /** The crossings among a list of meeting results, in order. */
  function Somes(ms: seq<Option<Intersection>>): seq<Intersection>
  {
    if ms == [] then [] else (match ms[0] case Some(x) => [x] case None => []) + Somes(ms[1..])
  }

  /** A row is the crossings among its section-by-section meetings. */
  lemma {:induction false} RowFromMeets(h: Section, t: seq<Section>, ms: seq<Option<Intersection>>)
    requires |ms| == |t|
    requires forall j :: 0 <= j < |t| ==> Meet(h, t[j]) == ms[j]
    ensures Row(h, t) == Somes(ms)
    decreases |t|
  {
    if t != [] {
      assert forall j :: 0 <= j < |t| - 1 ==> t[1..][j] == t[j + 1] && ms[1..][j] == ms[j + 1];
      RowFromMeets(h, t[1..], ms[1..]);
    }
  }

  function Concat(rs: seq<seq<Intersection>>): seq<Intersection>
  {
    if rs == [] then [] else rs[0] + Concat(rs[1..])
  }

  /** All rows are the rows of each section, one after another. */
  lemma {:induction false} AllRowsFromRows(a: seq<Section>, t: seq<Section>, rs: seq<seq<Intersection>>)
    requires |rs| == |a|
    requires forall i :: 0 <= i < |a| ==> Row(a[i], t) == rs[i]
    ensures AllRows(a, t) == Concat(rs)
    decreases |a|
  {
    if a != [] {
      assert forall i :: 0 <= i < |a| - 1 ==> a[1..][i] == a[i + 1] && rs[1..][i] == rs[i + 1];
      AllRowsFromRows(a[1..], t, rs[1..]);
    }
  }

  /** The sections of the wire "R75,D30,R83,U83,L12,D49,R71,U7,L72". */
  lemma LongExampleOneFirstWire(w: seq<Move>)
    requires w == [(75, 0), (0, -30), (83, 0), (0, 83), (-12, 0), (0, -49), (71, 0), (0, 7), (-72, 0)]
    ensures IntoAbsoluteCoords(w) ==
      [Section(ORIGIN, Position(75, 0), 0),
       Section(Position(75, 0), Position(75, -30), 75),
       Section(Position(75, -30), Position(158, -30), 105),
       Section(Position(158, -30), Position(158, 53), 188),
       Section(Position(158, 53), Position(146, 53), 271),
       Section(Position(146, 53), Position(146, 4), 283),
       Section(Position(146, 4), Position(217, 4), 332),
       Section(Position(217, 4), Position(217, 11), 403),
       Section(Position(217, 11), Position(145, 11), 410)]
  {
    var s := IntoAbsoluteCoords(w);
    IntoAbsoluteCoordsSteps(w);
    assert s[0] == Section(ORIGIN, Position(75, 0), 0);
    assert s[1] == Section(Position(75, 0), Position(75, -30), 75);
    assert s[2] == Section(Position(75, -30), Position(158, -30), 105);
    assert s[3] == Section(Position(158, -30), Position(158, 53), 188);
    assert s[4] == Section(Position(158, 53), Position(146, 53), 271);
    assert s[5] == Section(Position(146, 53), Position(146, 4), 283);
    assert s[6] == Section(Position(146, 4), Position(217, 4), 332);
    assert s[7] == Section(Position(217, 4), Position(217, 11), 403);
    assert s[8] == Section(Position(217, 11), Position(145, 11), 410);
  }

  /** The sections of the wire "U62,R66,U55,R34,D71,R55,D58,R83". */
  lemma LongExampleOneSecondWire(w: seq<Move>)
    requires w == [(0, 62), (66, 0), (0, 55), (34, 0), (0, -71), (55, 0), (0, -58), (83, 0)]
    ensures IntoAbsoluteCoords(w) ==
      [Section(ORIGIN, Position(0, 62), 0),
       Section(Position(0, 62), Position(66, 62), 62),
       Section(Position(66, 62), Position(66, 117), 128),
       Section(Position(66, 117), Position(100, 117), 183),
       Section(Position(100, 117), Position(100, 46), 217),
       Section(Position(100, 46), Position(155, 46), 288),
       Section(Position(155, 46), Position(155, -12), 343),
       Section(Position(155, -12), Position(238, -12), 401)]
  {
    var s := IntoAbsoluteCoords(w);
    IntoAbsoluteCoordsSteps(w);
    assert s[0] == Section(ORIGIN, Position(0, 62), 0);
    assert s[1] == Section(Position(0, 62), Position(66, 62), 62);
    assert s[2] == Section(Position(66, 62), Position(66, 117), 128);
    assert s[3] == Section(Position(66, 117), Position(100, 117), 183);
    assert s[4] == Section(Position(100, 117), Position(100, 46), 217);
    assert s[5] == Section(Position(100, 46), Position(155, 46), 288);
    assert s[6] == Section(Position(155, 46), Position(155, -12), 343);
    assert s[7] == Section(Position(155, -12), Position(238, -12), 401);
  }

  /** Section 1 of the first wire against the second wire's sections after the first. */
  lemma LongExampleOneRow1(h: Section, t: seq<Section>)
    requires h == Section(Position(75, 0), Position(75, -30), 75)
    requires t == [Section(Position(0, 62), Position(66, 62), 62),
                  Section(Position(66, 62), Position(66, 117), 128),
                  Section(Position(66, 117), Position(100, 117), 183),
                  Section(Position(100, 117), Position(100, 46), 217),
                  Section(Position(100, 46), Position(155, 46), 288),
                  Section(Position(155, 46), Position(155, -12), 343),
                  Section(Position(155, -12), Position(238, -12), 401)]
    ensures Row(h, t) == []
  {
    var ms := [None,
              None,
              None,
              None,
              None,
              None,
              None];
    assert Meet(h, t[0]) == ms[0];
    assert Meet(h, t[1]) == ms[1];
    assert Meet(h, t[2]) == ms[2];
    assert Meet(h, t[3]) == ms[3];
    assert Meet(h, t[4]) == ms[4];
    assert Meet(h, t[5]) == ms[5];
    assert Meet(h, t[6]) == ms[6];
    RowFromMeets(h, t, ms);
  }

  /** Section 2 of the first wire against the second wire's sections after the first. */
  lemma LongExampleOneRow2(h: Section, t: seq<Section>)
    requires h == Section(Position(75, -30), Position(158, -30), 105)
    requires t == [Section(Position(0, 62), Position(66, 62), 62),
                  Section(Position(66, 62), Position(66, 117), 128),
                  Section(Position(66, 117), Position(100, 117), 183),
                  Section(Position(100, 117), Position(100, 46), 217),
                  Section(Position(100, 46), Position(155, 46), 288),
                  Section(Position(155, 46), Position(155, -12), 343),
                  Section(Position(155, -12), Position(238, -12), 401)]
    ensures Row(h, t) == []
  {
    var ms := [None,
              None,
              None,
              None,
              None,
              None,
              None];
    assert Meet(h, t[0]) == ms[0];
    assert Meet(h, t[1]) == ms[1];
    assert Meet(h, t[2]) == ms[2];
    assert Meet(h, t[3]) == ms[3];
    assert Meet(h, t[4]) == ms[4];
    assert Meet(h, t[5]) == ms[5];
    assert Meet(h, t[6]) == ms[6];
    RowFromMeets(h, t, ms);
  }

  /** Section 3 of the first wire against the second wire's sections after the first. */
  lemma LongExampleOneRow3(h: Section, t: seq<Section>)
    requires h == Section(Position(158, -30), Position(158, 53), 188)
    requires t == [Section(Position(0, 62), Position(66, 62), 62),
                  Section(Position(66, 62), Position(66, 117), 128),
                  Section(Position(66, 117), Position(100, 117), 183),
                  Section(Position(100, 117), Position(100, 46), 217),
                  Section(Position(100, 46), Position(155, 46), 288),
                  Section(Position(155, 46), Position(155, -12), 343),
                  Section(Position(155, -12), Position(238, -12), 401)]
    ensures Row(h, t) == [Intersection(Position(158, -12), 610)]
  {
    var ms := [None,
              None,
              None,
              None,
              None,
              None,
              Some(Intersection(Position(158, -12), 610))];
    assert Meet(h, t[0]) == ms[0];
    assert Meet(h, t[1]) == ms[1];
    assert Meet(h, t[2]) == ms[2];
    assert Meet(h, t[3]) == ms[3];
    assert Meet(h, t[4]) == ms[4];
    assert Meet(h, t[5]) == ms[5];
    assert Meet(h, t[6]) == ms[6];
    RowFromMeets(h, t, ms);
  }

  /** Section 4 of the first wire against the second wire's sections after the first. */
  lemma LongExampleOneRow4(h: Section, t: seq<Section>)
    requires h == Section(Position(158, 53), Position(146, 53), 271)
    requires t == [Section(Position(0, 62), Position(66, 62), 62),
                  Section(Position(66, 62), Position(66, 117), 128),
                  Section(Position(66, 117), Position(100, 117), 183),
                  Section(Position(100, 117), Position(100, 46), 217),
                  Section(Position(100, 46), Position(155, 46), 288),
                  Section(Position(155, 46), Position(155, -12), 343),
                  Section(Position(155, -12), Position(238, -12), 401)]
    ensures Row(h, t) == []
  {
    var ms := [None,
              None,
              None,
              None,
              None,
              None,
              None];
    assert Meet(h, t[0]) == ms[0];
    assert Meet(h, t[1]) == ms[1];
    assert Meet(h, t[2]) == ms[2];
    assert Meet(h, t[3]) == ms[3];
    assert Meet(h, t[4]) == ms[4];
    assert Meet(h, t[5]) == ms[5];
    assert Meet(h, t[6]) == ms[6];
    RowFromMeets(h, t, ms);
  }

  /** Section 5 of the first wire against the second wire's sections after the first. */
  lemma LongExampleOneRow5(h: Section, t: seq<Section>)
    requires h == Section(Position(146, 53), Position(146, 4), 283)
    requires t == [Section(Position(0, 62), Position(66, 62), 62),
                  Section(Position(66, 62), Position(66, 117), 128),
                  Section(Position(66, 117), Position(100, 117), 183),
                  Section(Position(100, 117), Position(100, 46), 217),
                  Section(Position(100, 46), Position(155, 46), 288),
                  Section(Position(155, 46), Position(155, -12), 343),
                  Section(Position(155, -12), Position(238, -12), 401)]
    ensures Row(h, t) == [Intersection(Position(146, 46), 624)]
  {
    var ms := [None,
              None,
              None,
              None,
              Some(Intersection(Position(146, 46), 624)),
              None,
              None];
    assert Meet(h, t[0]) == ms[0];
    assert Meet(h, t[1]) == ms[1];
    assert Meet(h, t[2]) == ms[2];
    assert Meet(h, t[3]) == ms[3];
    assert Meet(h, t[4]) == ms[4];
    assert Meet(h, t[5]) == ms[5];
    assert Meet(h, t[6]) == ms[6];
    RowFromMeets(h, t, ms);
  }

  /** Section 6 of the first wire against the second wire's sections after the first. */
  lemma LongExampleOneRow6(h: Section, t: seq<Section>)
    requires h == Section(Position(146, 4), Position(217, 4), 332)
    requires t == [Section(Position(0, 62), Position(66, 62), 62),
                  Section(Position(66, 62), Position(66, 117), 128),
                  Section(Position(66, 117), Position(100, 117), 183),
                  Section(Position(100, 117), Position(100, 46), 217),
                  Section(Position(100, 46), Position(155, 46), 288),
                  Section(Position(155, 46), Position(155, -12), 343),
                  Section(Position(155, -12), Position(238, -12), 401)]
    ensures Row(h, t) == [Intersection(Position(155, 4), 726)]
  {
    var ms := [None,
              None,
              None,
              None,
              None,
              Some(Intersection(Position(155, 4), 726)),
              None];
    assert Meet(h, t[0]) == ms[0];
    assert Meet(h, t[1]) == ms[1];
    assert Meet(h, t[2]) == ms[2];
    assert Meet(h, t[3]) == ms[3];
    assert Meet(h, t[4]) == ms[4];
    assert Meet(h, t[5]) == ms[5];
    assert Meet(h, t[6]) == ms[6];
    RowFromMeets(h, t, ms);
  }

  /** Section 7 of the first wire against the second wire's sections after the first. */
  lemma LongExampleOneRow7(h: Section, t: seq<Section>)
    requires h == Section(Position(217, 4), Position(217, 11), 403)
    requires t == [Section(Position(0, 62), Position(66, 62), 62),
                  Section(Position(66, 62), Position(66, 117), 128),
                  Section(Position(66, 117), Position(100, 117), 183),
                  Section(Position(100, 117), Position(100, 46), 217),
                  Section(Position(100, 46), Position(155, 46), 288),
                  Section(Position(155, 46), Position(155, -12), 343),
                  Section(Position(155, -12), Position(238, -12), 401)]
    ensures Row(h, t) == []
  {
    var ms := [None,
              None,
              None,
              None,
              None,
              None,
              None];
    assert Meet(h, t[0]) == ms[0];
    assert Meet(h, t[1]) == ms[1];
    assert Meet(h, t[2]) == ms[2];
    assert Meet(h, t[3]) == ms[3];
    assert Meet(h, t[4]) == ms[4];
    assert Meet(h, t[5]) == ms[5];
    assert Meet(h, t[6]) == ms[6];
    RowFromMeets(h, t, ms);
  }

  /** Section 8 of the first wire against the second wire's sections after the first. */
  lemma LongExampleOneRow8(h: Section, t: seq<Section>)
    requires h == Section(Position(217, 11), Position(145, 11), 410)
    requires t == [Section(Position(0, 62), Position(66, 62), 62),
                  Section(Position(66, 62), Position(66, 117), 128),
                  Section(Position(66, 117), Position(100, 117), 183),
                  Section(Position(100, 117), Position(100, 46), 217),
                  Section(Position(100, 46), Position(155, 46), 288),
                  Section(Position(155, 46), Position(155, -12), 343),
                  Section(Position(155, -12), Position(238, -12), 401)]
    ensures Row(h, t) == [Intersection(Position(155, 11), 850)]
  {
    var ms := [None,
              None,
              None,
              None,
              None,
              Some(Intersection(Position(155, 11), 850)),
              None];
    assert Meet(h, t[0]) == ms[0];
    assert Meet(h, t[1]) == ms[1];
    assert Meet(h, t[2]) == ms[2];
    assert Meet(h, t[3]) == ms[3];
    assert Meet(h, t[4]) == ms[4];
    assert Meet(h, t[5]) == ms[5];
    assert Meet(h, t[6]) == ms[6];
    RowFromMeets(h, t, ms);
  }

  /** The rows of the two wires' sections after the first. */
  lemma LongExampleOneRows(a: seq<Section>, t: seq<Section>)
    requires a == [Section(Position(75, 0), Position(75, -30), 75),
                  Section(Position(75, -30), Position(158, -30), 105),
                  Section(Position(158, -30), Position(158, 53), 188),
                  Section(Position(158, 53), Position(146, 53), 271),
                  Section(Position(146, 53), Position(146, 4), 283),
                  Section(Position(146, 4), Position(217, 4), 332),
                  Section(Position(217, 4), Position(217, 11), 403),
                  Section(Position(217, 11), Position(145, 11), 410)]
    requires t == [Section(Position(0, 62), Position(66, 62), 62),
                  Section(Position(66, 62), Position(66, 117), 128),
                  Section(Position(66, 117), Position(100, 117), 183),
                  Section(Position(100, 117), Position(100, 46), 217),
                  Section(Position(100, 46), Position(155, 46), 288),
                  Section(Position(155, 46), Position(155, -12), 343),
                  Section(Position(155, -12), Position(238, -12), 401)]
    ensures Row(a[0], t) == []
    ensures Row(a[1], t) == []
    ensures Row(a[2], t) == [Intersection(Position(158, -12), 610)]
    ensures Row(a[3], t) == []
    ensures Row(a[4], t) == [Intersection(Position(146, 46), 624)]
    ensures Row(a[5], t) == [Intersection(Position(155, 4), 726)]
    ensures Row(a[6], t) == []
    ensures Row(a[7], t) == [Intersection(Position(155, 11), 850)]
  {
    LongExampleOneRow1(a[0], t);
    LongExampleOneRow2(a[1], t);
    LongExampleOneRow3(a[2], t);
    LongExampleOneRow4(a[3], t);
    LongExampleOneRow5(a[4], t);
    LongExampleOneRow6(a[5], t);
    LongExampleOneRow7(a[6], t);
    LongExampleOneRow8(a[7], t);
  }

  /** The crossings of the two wires' sections after the first: their rows one after another. */
  lemma LongExampleOneCrossings(a: seq<Section>, t: seq<Section>)
    requires |a| == 8
    requires Row(a[0], t) == []
    requires Row(a[1], t) == []
    requires Row(a[2], t) == [Intersection(Position(158, -12), 610)]
    requires Row(a[3], t) == []
    requires Row(a[4], t) == [Intersection(Position(146, 46), 624)]
    requires Row(a[5], t) == [Intersection(Position(155, 4), 726)]
    requires Row(a[6], t) == []
    requires Row(a[7], t) == [Intersection(Position(155, 11), 850)]
    ensures AllRows(a, t) == [Intersection(Position(158, -12), 610),
                             Intersection(Position(146, 46), 624),
                             Intersection(Position(155, 4), 726),
                             Intersection(Position(155, 11), 850)]
  {
    AllRowsFromRows(a, t, [[],
                           [],
                           [Intersection(Position(158, -12), 610)],
                           [],
                           [Intersection(Position(146, 46), 624)],
                           [Intersection(Position(155, 4), 726)],
                           [],
                           [Intersection(Position(155, 11), 850)]]);
  }

  /**
   * The wires "R75,D30,R83,U83,L12,D49,R71,U7,L72" and "U62,R66,U55,R34,D71,R55,D58,R83":
   * part one gives 159 and part two 610.
   */
  lemma LongExampleOne(w1: seq<Move>, w2: seq<Move>)
    requires w1 == [(75, 0), (0, -30), (83, 0), (0, 83), (-12, 0), (0, -49), (71, 0), (0, 7), (-72, 0)]
    requires w2 == [(0, 62), (66, 0), (0, 55), (34, 0), (0, -71), (55, 0), (0, -58), (83, 0)]
    ensures var xs := FindIntersections(IntoAbsoluteCoords(w1), IntoAbsoluteCoords(w2));
      FindClosestStart(xs).dist == 159 && FindShortestStart(xs).dist == 610
  {
    LongExampleOneFirstWire(w1);
    LongExampleOneSecondWire(w2);
    var s1, s2 := IntoAbsoluteCoords(w1), IntoAbsoluteCoords(w2);
    LongExampleOneRows(s1[1..], s2[1..]);
    LongExampleOneCrossings(s1[1..], s2[1..]);
    var xs := [Intersection(Position(158, -12), 610),
              Intersection(Position(146, 46), 624),
              Intersection(Position(155, 4), 726),
              Intersection(Position(155, 11), 850)];
    assert FindIntersections(s1, s2) == xs;
    assert FindClosestStart(xs).dist == 159;
    assert FindShortestStart(xs).dist == 610;
  }

  /** The sections of the wire "R98,U47,R26,D63,R33,U87,L62,D20,R33,U53,R51". */
  lemma LongExampleTwoFirstWire(w: seq<Move>)
    requires w == [(98, 0), (0, 47), (26, 0), (0, -63), (33, 0), (0, 87), (-62, 0), (0, -20), (33, 0), (0, 53), (51, 0)]
    ensures IntoAbsoluteCoords(w) ==
      [Section(ORIGIN, Position(98, 0), 0),
       Section(Position(98, 0), Position(98, 47), 98),
       Section(Position(98, 47), Position(124, 47), 145),
       Section(Position(124, 47), Position(124, -16), 171),
       Section(Position(124, -16), Position(157, -16), 234),
       Section(Position(157, -16), Position(157, 71), 267),
       Section(Position(157, 71), Position(95, 71), 354),
       Section(Position(95, 71), Position(95, 51), 416),
       Section(Position(95, 51), Position(128, 51), 436),
       Section(Position(128, 51), Position(128, 104), 469),
       Section(Position(128, 104), Position(179, 104), 522)]
  {
    var s := IntoAbsoluteCoords(w);
    IntoAbsoluteCoordsSteps(w);
    assert s[0] == Section(ORIGIN, Position(98, 0), 0);
    assert s[1] == Section(Position(98, 0), Position(98, 47), 98);
    assert s[2] == Section(Position(98, 47), Position(124, 47), 145);
    assert s[3] == Section(Position(124, 47), Position(124, -16), 171);
    assert s[4] == Section(Position(124, -16), Position(157, -16), 234);
    assert s[5] == Section(Position(157, -16), Position(157, 71), 267);
    assert s[6] == Section(Position(157, 71), Position(95, 71), 354);
    assert s[7] == Section(Position(95, 71), Position(95, 51), 416);
    assert s[8] == Section(Position(95, 51), Position(128, 51), 436);
    assert s[9] == Section(Position(128, 51), Position(128, 104), 469);
    assert s[10] == Section(Position(128, 104), Position(179, 104), 522);
  }

  /** The sections of the wire "U98,R91,D20,R16,D67,R40,U7,R15,U6,R7". */
  lemma LongExampleTwoSecondWire(w: seq<Move>)
    requires w == [(0, 98), (91, 0), (0, -20), (16, 0), (0, -67), (40, 0), (0, 7), (15, 0), (0, 6), (7, 0)]
    ensures IntoAbsoluteCoords(w) ==
      [Section(ORIGIN, Position(0, 98), 0),
       Section(Position(0, 98), Position(91, 98), 98),
       Section(Position(91, 98), Position(91, 78), 189),
       Section(Position(91, 78), Position(107, 78), 209),
       Section(Position(107, 78), Position(107, 11), 225),
       Section(Position(107, 11), Position(147, 11), 292),
       Section(Position(147, 11), Position(147, 18), 332),
       Section(Position(147, 18), Position(162, 18), 339),
       Section(Position(162, 18), Position(162, 24), 354),
       Section(Position(162, 24), Position(169, 24), 360)]
  {
    var s := IntoAbsoluteCoords(w);
    IntoAbsoluteCoordsSteps(w);
    assert s[0] == Section(ORIGIN, Position(0, 98), 0);
    assert s[1] == Section(Position(0, 98), Position(91, 98), 98);
    assert s[2] == Section(Position(91, 98), Position(91, 78), 189);
    assert s[3] == Section(Position(91, 78), Position(107, 78), 209);
    assert s[4] == Section(Position(107, 78), Position(107, 11), 225);
    assert s[5] == Section(Position(107, 11), Position(147, 11), 292);
    assert s[6] == Section(Position(147, 11), Position(147, 18), 332);
    assert s[7] == Section(Position(147, 18), Position(162, 18), 339);
    assert s[8] == Section(Position(162, 18), Position(162, 24), 354);
    assert s[9] == Section(Position(162, 24), Position(169, 24), 360);
  }

  /** Section 1 of the first wire against the second wire's sections after the first. */
  lemma LongExampleTwoRow1(h: Section, t: seq<Section>)
    requires h == Section(Position(98, 0), Position(98, 47), 98)
    requires t == [Section(Position(0, 98), Position(91, 98), 98),
                  Section(Position(91, 98), Position(91, 78), 189),
                  Section(Position(91, 78), Position(107, 78), 209),
                  Section(Position(107, 78), Position(107, 11), 225),
                  Section(Position(107, 11), Position(147, 11), 292),
                  Section(Position(147, 11), Position(147, 18), 332),
                  Section(Position(147, 18), Position(162, 18), 339),
                  Section(Position(162, 18), Position(162, 24), 354),
                  Section(Position(162, 24), Position(169, 24), 360)]
    ensures Row(h, t) == []
  {
    var ms := [None,
              None,
              None,
              None,
              None,
              None,
              None,
              None,
              None];
    assert Meet(h, t[0]) == ms[0];
    assert Meet(h, t[1]) == ms[1];
    assert Meet(h, t[2]) == ms[2];
    assert Meet(h, t[3]) == ms[3];
    assert Meet(h, t[4]) == ms[4];
    assert Meet(h, t[5]) == ms[5];
    assert Meet(h, t[6]) == ms[6];
    assert Meet(h, t[7]) == ms[7];
    assert Meet(h, t[8]) == ms[8];
    RowFromMeets(h, t, ms);
  }

  /** Section 2 of the first wire against the second wire's sections after the first. */
  lemma LongExampleTwoRow2(h: Section, t: seq<Section>)
    requires h == Section(Position(98, 47), Position(124, 47), 145)
    requires t == [Section(Position(0, 98), Position(91, 98), 98),
                  Section(Position(91, 98), Position(91, 78), 189),
                  Section(Position(91, 78), Position(107, 78), 209),
                  Section(Position(107, 78), Position(107, 11), 225),
                  Section(Position(107, 11), Position(147, 11), 292),
                  Section(Position(147, 11), Position(147, 18), 332),
                  Section(Position(147, 18), Position(162, 18), 339),
                  Section(Position(162, 18), Position(162, 24), 354),
                  Section(Position(162, 24), Position(169, 24), 360)]
    ensures Row(h, t) == [Intersection(Position(107, 47), 410)]
  {
    var ms := [None,
              None,
              None,
              Some(Intersection(Position(107, 47), 410)),
              None,
              None,
              None,
              None,
              None];
    assert Meet(h, t[0]) == ms[0];
    assert Meet(h, t[1]) == ms[1];
    assert Meet(h, t[2]) == ms[2];
    assert Meet(h, t[3]) == ms[3];
    assert Meet(h, t[4]) == ms[4];
    assert Meet(h, t[5]) == ms[5];
    assert Meet(h, t[6]) == ms[6];
    assert Meet(h, t[7]) == ms[7];
    assert Meet(h, t[8]) == ms[8];
    RowFromMeets(h, t, ms);
  }

  /** Section 3 of the first wire against the second wire's sections after the first. */
  lemma LongExampleTwoRow3(h: Section, t: seq<Section>)
    requires h == Section(Position(124, 47), Position(124, -16), 171)
    requires t == [Section(Position(0, 98), Position(91, 98), 98),
                  Section(Position(91, 98), Position(91, 78), 189),
                  Section(Position(91, 78), Position(107, 78), 209),
                  Section(Position(107, 78), Position(107, 11), 225),
                  Section(Position(107, 11), Position(147, 11), 292),
                  Section(Position(147, 11), Position(147, 18), 332),
                  Section(Position(147, 18), Position(162, 18), 339),
                  Section(Position(162, 18), Position(162, 24), 354),
                  Section(Position(162, 24), Position(169, 24), 360)]
    ensures Row(h, t) == [Intersection(Position(124, 11), 516)]
  {
    var ms := [None,
              None,
              None,
              None,
              Some(Intersection(Position(124, 11), 516)),
              None,
              None,
              None,
              None];
    assert Meet(h, t[0]) == ms[0];
    assert Meet(h, t[1]) == ms[1];
    assert Meet(h, t[2]) == ms[2];
    assert Meet(h, t[3]) == ms[3];
    assert Meet(h, t[4]) == ms[4];
    assert Meet(h, t[5]) == ms[5];
    assert Meet(h, t[6]) == ms[6];
    assert Meet(h, t[7]) == ms[7];
    assert Meet(h, t[8]) == ms[8];
    RowFromMeets(h, t, ms);
  }

  /** Section 4 of the first wire against the second wire's sections after the first. */
  lemma LongExampleTwoRow4(h: Section, t: seq<Section>)
    requires h == Section(Position(124, -16), Position(157, -16), 234)
    requires t == [Section(Position(0, 98), Position(91, 98), 98),
                  Section(Position(91, 98), Position(91, 78), 189),
                  Section(Position(91, 78), Position(107, 78), 209),
                  Section(Position(107, 78), Position(107, 11), 225),
                  Section(Position(107, 11), Position(147, 11), 292),
                  Section(Position(147, 11), Position(147, 18), 332),
                  Section(Position(147, 18), Position(162, 18), 339),
                  Section(Position(162, 18), Position(162, 24), 354),
                  Section(Position(162, 24), Position(169, 24), 360)]
    ensures Row(h, t) == []
  {
    var ms := [None,
              None,
              None,
              None,
              None,
              None,
              None,
              None,
              None];
    assert Meet(h, t[0]) == ms[0];
    assert Meet(h, t[1]) == ms[1];
    assert Meet(h, t[2]) == ms[2];
    assert Meet(h, t[3]) == ms[3];
    assert Meet(h, t[4]) == ms[4];
    assert Meet(h, t[5]) == ms[5];
    assert Meet(h, t[6]) == ms[6];
    assert Meet(h, t[7]) == ms[7];
    assert Meet(h, t[8]) == ms[8];
    RowFromMeets(h, t, ms);
  }

  /** Section 5 of the first wire against the second wire's sections after the first. */
  lemma LongExampleTwoRow5(h: Section, t: seq<Section>)
    requires h == Section(Position(157, -16), Position(157, 71), 267)
    requires t == [Section(Position(0, 98), Position(91, 98), 98),
                  Section(Position(91, 98), Position(91, 78), 189),
                  Section(Position(91, 78), Position(107, 78), 209),
                  Section(Position(107, 78), Position(107, 11), 225),
                  Section(Position(107, 11), Position(147, 11), 292),
                  Section(Position(147, 11), Position(147, 18), 332),
                  Section(Position(147, 18), Position(162, 18), 339),
                  Section(Position(162, 18), Position(162, 24), 354),
                  Section(Position(162, 24), Position(169, 24), 360)]
    ensures Row(h, t) == [Intersection(Position(157, 18), 650)]
  {
    var ms := [None,
              None,
              None,
              None,
              None,
              None,
              Some(Intersection(Position(157, 18), 650)),
              None,
              None];
    assert Meet(h, t[0]) == ms[0];
    assert Meet(h, t[1]) == ms[1];
    assert Meet(h, t[2]) == ms[2];
    assert Meet(h, t[3]) == ms[3];
    assert Meet(h, t[4]) == ms[4];
    assert Meet(h, t[5]) == ms[5];
    assert Meet(h, t[6]) == ms[6];
    assert Meet(h, t[7]) == ms[7];
    assert Meet(h, t[8]) == ms[8];
    RowFromMeets(h, t, ms);
  }

  /** Section 6 of the first wire against the second wire's sections after the first. */
  lemma LongExampleTwoRow6(h: Section, t: seq<Section>)
    requires h == Section(Position(157, 71), Position(95, 71), 354)
    requires t == [Section(Position(0, 98), Position(91, 98), 98),
                  Section(Position(91, 98), Position(91, 78), 189),
                  Section(Position(91, 78), Position(107, 78), 209),
                  Section(Position(107, 78), Position(107, 11), 225),
                  Section(Position(107, 11), Position(147, 11), 292),
                  Section(Position(147, 11), Position(147, 18), 332),
                  Section(Position(147, 18), Position(162, 18), 339),
                  Section(Position(162, 18), Position(162, 24), 354),
                  Section(Position(162, 24), Position(169, 24), 360)]
    ensures Row(h, t) == [Intersection(Position(107, 71), 636)]
  {
    var ms := [None,
              None,
              None,
              Some(Intersection(Position(107, 71), 636)),
              None,
              None,
              None,
              None,
              None];
    assert Meet(h, t[0]) == ms[0];
    assert Meet(h, t[1]) == ms[1];
    assert Meet(h, t[2]) == ms[2];
    assert Meet(h, t[3]) == ms[3];
    assert Meet(h, t[4]) == ms[4];
    assert Meet(h, t[5]) == ms[5];
    assert Meet(h, t[6]) == ms[6];
    assert Meet(h, t[7]) == ms[7];
    assert Meet(h, t[8]) == ms[8];
    RowFromMeets(h, t, ms);
  }

  /** Section 7 of the first wire against the second wire's sections after the first. */
  lemma LongExampleTwoRow7(h: Section, t: seq<Section>)
    requires h == Section(Position(95, 71), Position(95, 51), 416)
    requires t == [Section(Position(0, 98), Position(91, 98), 98),
                  Section(Position(91, 98), Position(91, 78), 189),
                  Section(Position(91, 78), Position(107, 78), 209),
                  Section(Position(107, 78), Position(107, 11), 225),
                  Section(Position(107, 11), Position(147, 11), 292),
                  Section(Position(147, 11), Position(147, 18), 332),
                  Section(Position(147, 18), Position(162, 18), 339),
                  Section(Position(162, 18), Position(162, 24), 354),
                  Section(Position(162, 24), Position(169, 24), 360)]
    ensures Row(h, t) == []
  {
    var ms := [None,
              None,
              None,
              None,
              None,
              None,
              None,
              None,
              None];
    assert Meet(h, t[0]) == ms[0];
    assert Meet(h, t[1]) == ms[1];
    assert Meet(h, t[2]) == ms[2];
    assert Meet(h, t[3]) == ms[3];
    assert Meet(h, t[4]) == ms[4];
    assert Meet(h, t[5]) == ms[5];
    assert Meet(h, t[6]) == ms[6];
    assert Meet(h, t[7]) == ms[7];
    assert Meet(h, t[8]) == ms[8];
    RowFromMeets(h, t, ms);
  }

  /** Section 8 of the first wire against the second wire's sections after the first. */
  lemma LongExampleTwoRow8(h: Section, t: seq<Section>)
    requires h == Section(Position(95, 51), Position(128, 51), 436)
    requires t == [Section(Position(0, 98), Position(91, 98), 98),
                  Section(Position(91, 98), Position(91, 78), 189),
                  Section(Position(91, 78), Position(107, 78), 209),
                  Section(Position(107, 78), Position(107, 11), 225),
                  Section(Position(107, 11), Position(147, 11), 292),
                  Section(Position(147, 11), Position(147, 18), 332),
                  Section(Position(147, 18), Position(162, 18), 339),
                  Section(Position(162, 18), Position(162, 24), 354),
                  Section(Position(162, 24), Position(169, 24), 360)]
    ensures Row(h, t) == [Intersection(Position(107, 51), 700)]
  {
    var ms := [None,
              None,
              None,
              Some(Intersection(Position(107, 51), 700)),
              None,
              None,
              None,
              None,
              None];
    assert Meet(h, t[0]) == ms[0];
    assert Meet(h, t[1]) == ms[1];
    assert Meet(h, t[2]) == ms[2];
    assert Meet(h, t[3]) == ms[3];
    assert Meet(h, t[4]) == ms[4];
    assert Meet(h, t[5]) == ms[5];
    assert Meet(h, t[6]) == ms[6];
    assert Meet(h, t[7]) == ms[7];
    assert Meet(h, t[8]) == ms[8];
    RowFromMeets(h, t, ms);
  }

  /** Section 9 of the first wire against the second wire's sections after the first. */
  lemma LongExampleTwoRow9(h: Section, t: seq<Section>)
    requires h == Section(Position(128, 51), Position(128, 104), 469)
    requires t == [Section(Position(0, 98), Position(91, 98), 98),
                  Section(Position(91, 98), Position(91, 78), 189),
                  Section(Position(91, 78), Position(107, 78), 209),
                  Section(Position(107, 78), Position(107, 11), 225),
                  Section(Position(107, 11), Position(147, 11), 292),
                  Section(Position(147, 11), Position(147, 18), 332),
                  Section(Position(147, 18), Position(162, 18), 339),
                  Section(Position(162, 18), Position(162, 24), 354),
                  Section(Position(162, 24), Position(169, 24), 360)]
    ensures Row(h, t) == []
  {
    var ms := [None,
              None,
              None,
              None,
              None,
              None,
              None,
              None,
              None];
    assert Meet(h, t[0]) == ms[0];
    assert Meet(h, t[1]) == ms[1];
    assert Meet(h, t[2]) == ms[2];
    assert Meet(h, t[3]) == ms[3];
    assert Meet(h, t[4]) == ms[4];
    assert Meet(h, t[5]) == ms[5];
    assert Meet(h, t[6]) == ms[6];
    assert Meet(h, t[7]) == ms[7];
    assert Meet(h, t[8]) == ms[8];
    RowFromMeets(h, t, ms);
  }

  /** Section 10 of the first wire against the second wire's sections after the first. */
  lemma LongExampleTwoRow10(h: Section, t: seq<Section>)
    requires h == Section(Position(128, 104), Position(179, 104), 522)
    requires t == [Section(Position(0, 98), Position(91, 98), 98),
                  Section(Position(91, 98), Position(91, 78), 189),
                  Section(Position(91, 78), Position(107, 78), 209),
                  Section(Position(107, 78), Position(107, 11), 225),
                  Section(Position(107, 11), Position(147, 11), 292),
                  Section(Position(147, 11), Position(147, 18), 332),
                  Section(Position(147, 18), Position(162, 18), 339),
                  Section(Position(162, 18), Position(162, 24), 354),
                  Section(Position(162, 24), Position(169, 24), 360)]
    ensures Row(h, t) == []
  {
    var ms := [None,
              None,
              None,
              None,
              None,
              None,
              None,
              None,
              None];
    assert Meet(h, t[0]) == ms[0];
    assert Meet(h, t[1]) == ms[1];
    assert Meet(h, t[2]) == ms[2];
    assert Meet(h, t[3]) == ms[3];
    assert Meet(h, t[4]) == ms[4];
    assert Meet(h, t[5]) == ms[5];
    assert Meet(h, t[6]) == ms[6];
    assert Meet(h, t[7]) == ms[7];
    assert Meet(h, t[8]) == ms[8];
    RowFromMeets(h, t, ms);
  }

  /** The rows of the two wires' sections after the first. */
  lemma LongExampleTwoRows(a: seq<Section>, t: seq<Section>)
    requires a == [Section(Position(98, 0), Position(98, 47), 98),
                  Section(Position(98, 47), Position(124, 47), 145),
                  Section(Position(124, 47), Position(124, -16), 171),
                  Section(Position(124, -16), Position(157, -16), 234),
                  Section(Position(157, -16), Position(157, 71), 267),
                  Section(Position(157, 71), Position(95, 71), 354),
                  Section(Position(95, 71), Position(95, 51), 416),
                  Section(Position(95, 51), Position(128, 51), 436),
                  Section(Position(128, 51), Position(128, 104), 469),
                  Section(Position(128, 104), Position(179, 104), 522)]
    requires t == [Section(Position(0, 98), Position(91, 98), 98),
                  Section(Position(91, 98), Position(91, 78), 189),
                  Section(Position(91, 78), Position(107, 78), 209),
                  Section(Position(107, 78), Position(107, 11), 225),
                  Section(Position(107, 11), Position(147, 11), 292),
                  Section(Position(147, 11), Position(147, 18), 332),
                  Section(Position(147, 18), Position(162, 18), 339),
                  Section(Position(162, 18), Position(162, 24), 354),
                  Section(Position(162, 24), Position(169, 24), 360)]
    ensures Row(a[0], t) == []
    ensures Row(a[1], t) == [Intersection(Position(107, 47), 410)]
    ensures Row(a[2], t) == [Intersection(Position(124, 11), 516)]
    ensures Row(a[3], t) == []
    ensures Row(a[4], t) == [Intersection(Position(157, 18), 650)]
    ensures Row(a[5], t) == [Intersection(Position(107, 71), 636)]
    ensures Row(a[6], t) == []
    ensures Row(a[7], t) == [Intersection(Position(107, 51), 700)]
    ensures Row(a[8], t) == []
    ensures Row(a[9], t) == []
  {
    LongExampleTwoRow1(a[0], t);
    LongExampleTwoRow2(a[1], t);
    LongExampleTwoRow3(a[2], t);
    LongExampleTwoRow4(a[3], t);
    LongExampleTwoRow5(a[4], t);
    LongExampleTwoRow6(a[5], t);
    LongExampleTwoRow7(a[6], t);
    LongExampleTwoRow8(a[7], t);
    LongExampleTwoRow9(a[8], t);
    LongExampleTwoRow10(a[9], t);
  }

  /** The crossings of the two wires' sections after the first: their rows one after another. */
  lemma LongExampleTwoCrossings(a: seq<Section>, t: seq<Section>)
    requires |a| == 10
    requires Row(a[0], t) == []
    requires Row(a[1], t) == [Intersection(Position(107, 47), 410)]
    requires Row(a[2], t) == [Intersection(Position(124, 11), 516)]
    requires Row(a[3], t) == []
    requires Row(a[4], t) == [Intersection(Position(157, 18), 650)]
    requires Row(a[5], t) == [Intersection(Position(107, 71), 636)]
    requires Row(a[6], t) == []
    requires Row(a[7], t) == [Intersection(Position(107, 51), 700)]
    requires Row(a[8], t) == []
    requires Row(a[9], t) == []
    ensures AllRows(a, t) == [Intersection(Position(107, 47), 410),
                             Intersection(Position(124, 11), 516),
                             Intersection(Position(157, 18), 650),
                             Intersection(Position(107, 71), 636),
                             Intersection(Position(107, 51), 700)]
  {
    AllRowsFromRows(a, t, [[],
                           [Intersection(Position(107, 47), 410)],
                           [Intersection(Position(124, 11), 516)],
                           [],
                           [Intersection(Position(157, 18), 650)],
                           [Intersection(Position(107, 71), 636)],
                           [],
                           [Intersection(Position(107, 51), 700)],
                           [],
                           []]);
  }

  /**
   * The wires "R98,U47,R26,D63,R33,U87,L62,D20,R33,U53,R51" and "U98,R91,D20,R16,D67,R40,U7,R15,U6,R7":
   * part one gives 135 and part two 410.
   */
  lemma LongExampleTwo(w1: seq<Move>, w2: seq<Move>)
    requires w1 == [(98, 0), (0, 47), (26, 0), (0, -63), (33, 0), (0, 87), (-62, 0), (0, -20), (33, 0), (0, 53), (51, 0)]
    requires w2 == [(0, 98), (91, 0), (0, -20), (16, 0), (0, -67), (40, 0), (0, 7), (15, 0), (0, 6), (7, 0)]
    ensures var xs := FindIntersections(IntoAbsoluteCoords(w1), IntoAbsoluteCoords(w2));
      FindClosestStart(xs).dist == 135 && FindShortestStart(xs).dist == 410
  {
    LongExampleTwoFirstWire(w1);
    LongExampleTwoSecondWire(w2);
    var s1, s2 := IntoAbsoluteCoords(w1), IntoAbsoluteCoords(w2);
    LongExampleTwoRows(s1[1..], s2[1..]);
    LongExampleTwoCrossings(s1[1..], s2[1..]);
    var xs := [Intersection(Position(107, 47), 410),
              Intersection(Position(124, 11), 516),
              Intersection(Position(157, 18), 650),
              Intersection(Position(107, 71), 636),
              Intersection(Position(107, 51), 700)];
    assert FindIntersections(s1, s2) == xs;
    assert FindClosestStart(xs).dist == 135;
    assert FindShortestStart(xs).dist == 410;
  }
}
