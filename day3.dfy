/**
 * Crossed wires: each wire is a list of moves from the central port at
 * (0, 0). The moves become sections with absolute end points and the
 * distance walked before them; horizontal and vertical sections of the two
 * wires are matched to find crossings; and a crossing is chosen either by
 * its Manhattan distance from the port or by the combined distance both
 * wires walk to reach it.
 */
module Day3 {
  import opened Wrappers

  const I32_MAX: int := 0x7fff_ffff

  /** A move (dx, dy), as the parser produces it. */
  type Move = (int, int)

  datatype Position = Position(x: int, y: int)

  const ORIGIN: Position := Position(0, 0)

  datatype Section = Section(start: Position, end: Position, distance: int)

  datatype Direction = Horizontal | Vertical | Diagonal

  datatype Intersection = Intersection(pos: Position, dist: int)

  /** The seed of both searches: the port itself at the largest i32 distance. */
  const EMPTY: Intersection := Intersection(ORIGIN, I32_MAX)

  function Abs(v: int): nat { if v < 0 then -v else v }

  /** How many unit steps a move takes. */
  function Steps(m: Move): nat { Abs(m.0) + Abs(m.1) }

  /** A section whose end points share a y is horizontal, even when they also share an x. */
  function DirectionOf(s: Section): (d: Direction)
    ensures d == Horizontal <==> s.start.y == s.end.y
    ensures d == Vertical <==> s.start.y != s.end.y && s.start.x == s.end.x
  {
    if s.start.y == s.end.y then Horizontal
    else if s.start.x == s.end.x then Vertical
    else Diagonal
  }

  // ---------------------------------------------------------------------------
  // From moves to sections
  // ---------------------------------------------------------------------------

  /** The scan over the moves, from position `pos` having walked `dist` already. */
  function Trace(w: seq<Move>, pos: Position, dist: int): (sections: seq<Section>)
    ensures |sections| == |w|
  {
    if w == [] then []
    else
      var dest := Position(pos.x + w[0].0, pos.y + w[0].1);
      [Section(pos, dest, dist)] + Trace(w[1..], dest, dist + Steps(w[0]))
  }

  /** The sections of a wire laid out from the port. */
  function IntoAbsoluteCoords(w: seq<Move>): (sections: seq<Section>)
    ensures |sections| == |w|
  {
    Trace(w, ORIGIN, 0)
  }

  /**
   * The scan's sections start where asked, each ends one move from its
   * start, each next one starts where the one before ended, and the distance
   * walked grows by the steps of each move.
   */
  lemma {:induction false} TraceSteps(w: seq<Move>, pos: Position, dist: int)
    ensures var r := Trace(w, pos, dist);
      (|r| > 0 ==> r[0].start == pos && r[0].distance == dist) &&
      (forall k :: 0 <= k < |r| ==> r[k].end == Position(r[k].start.x + w[k].0, r[k].start.y + w[k].1)) &&
      (forall k :: 0 <= k < |r| - 1 ==> r[k + 1].start == r[k].end) &&
      (forall k :: 0 <= k < |r| - 1 ==> r[k + 1].distance == r[k].distance + Steps(w[k]))
    decreases |w|
  {
    if w != [] {
      var dest := Position(pos.x + w[0].0, pos.y + w[0].1);
      var r, rest := Trace(w, pos, dist), Trace(w[1..], dest, dist + Steps(w[0]));
      TraceSteps(w[1..], dest, dist + Steps(w[0]));
      assert r[1..] == rest;
      forall k | 1 <= k < |r|
        ensures r[k] == rest[k - 1] && w[k] == w[1..][k - 1]
      {
      }
    }
  }

  /** The sections of a wire: the first starts at the port having walked nothing, and the rest chain on. */
  lemma IntoAbsoluteCoordsSteps(w: seq<Move>)
    ensures var r := IntoAbsoluteCoords(w);
      (|r| > 0 ==> r[0].start == ORIGIN && r[0].distance == 0) &&
      (forall k :: 0 <= k < |r| ==> r[k].end == Position(r[k].start.x + w[k].0, r[k].start.y + w[k].1)) &&
      (forall k :: 0 <= k < |r| - 1 ==> r[k + 1].start == r[k].end) &&
      (forall k :: 0 <= k < |r| - 1 ==> r[k + 1].distance == r[k].distance + Steps(w[k]))
  {
    TraceSteps(w, ORIGIN, 0);
  }

  /** A move along one axis gives a horizontal or vertical section, never a diagonal one. */
  lemma {:induction false} AxisMovesNeverDiagonal(w: seq<Move>)
    requires forall k :: 0 <= k < |w| ==> w[k].0 == 0 || w[k].1 == 0
    ensures forall k :: 0 <= k < |w| ==> DirectionOf(IntoAbsoluteCoords(w)[k]) != Diagonal
  {
    IntoAbsoluteCoordsSteps(w);
  }

  // ---------------------------------------------------------------------------
  // Crossings
  // ---------------------------------------------------------------------------

  /** `c` lies between `a` and `b`, whichever is smaller. */
  predicate Between(a: int, b: int, c: int)
  {
    if a <= b then a <= c <= b else b <= c <= a
  }

  /** The point lies on the section, seen as the rectangle spanned by its end points. */
  predicate OnSection(p: Position, s: Section)
  {
    Between(s.start.x, s.end.x, p.x) && Between(s.start.y, s.end.y, p.y)
  }

  /** The distance a wire has walked when it reaches `p` along section `s`. */
  function Walked(s: Section, p: Position): int
  {
    s.distance + Abs(p.x - s.start.x) + Abs(p.y - s.start.y)
  }

  /**
   * Where horizontal section `h` and vertical section `v` cross: the crossing
   * lies at v's x and h's y, and its distance is the sum of what each wire
   * walked to get there.
   */
  function Cross(h: Section, v: Section): Option<Intersection>
  {
    var (leftX, rightX) := if h.start.x <= h.end.x then (h.start.x, h.end.x) else (h.end.x, h.start.x);
    var (topY, botY) := if v.start.y <= v.end.y then (v.start.y, v.end.y) else (v.end.y, v.start.y);
    if leftX <= v.start.x && rightX >= v.start.x && topY <= h.start.y && botY >= h.start.y then
      Some(Intersection(Position(v.start.x, h.start.y),
        h.distance + Abs(v.start.x - h.start.x) + v.distance + Abs(h.start.y - v.start.y)))
    else None
  }

  /** A section of the first wire against one of the second: only a horizontal and a vertical one can cross. */
  function Meet(s1: Section, s2: Section): Option<Intersection>
  {
    match (DirectionOf(s1), DirectionOf(s2))
    case (Horizontal, Vertical) => Cross(s1, s2)
    case (Vertical, Horizontal) => Cross(s2, s1)
    case _ => None
  }

  /**
   * A horizontal and a vertical section meet exactly when some point lies on
   * both; that point is the crossing, and its distance is what the two
   * wires walked to reach it.
   */
  lemma MeetIsCommonPoint(s1: Section, s2: Section, p: Position)
    requires (DirectionOf(s1) == Horizontal && DirectionOf(s2) == Vertical) ||
             (DirectionOf(s1) == Vertical && DirectionOf(s2) == Horizontal)
    ensures OnSection(p, s1) && OnSection(p, s2) <==>
      Meet(s1, s2) == Some(Intersection(p, Walked(s1, p) + Walked(s2, p)))
  {
  }

  /** Two horizontal sections, two vertical ones, or a diagonal one never meet, even when they overlap. */
  lemma MeetNeedsBothAxes(s1: Section, s2: Section)
    requires DirectionOf(s1) == DirectionOf(s2) || DirectionOf(s1) == Diagonal || DirectionOf(s2) == Diagonal
    ensures Meet(s1, s2) == None
  {
  }

  /** The crossings of section `s1` with each of `others`, in order. */
  function Row(s1: Section, others: seq<Section>): seq<Intersection>
  {
    if others == [] then []
    else (match Meet(s1, others[0]) case Some(x) => [x] case None => []) + Row(s1, others[1..])
  }

  /** The crossings of one section are exactly its meetings with each of the others. */
  lemma {:induction false} RowMeaning(s1: Section, others: seq<Section>)
    ensures forall x :: x in Row(s1, others) <==> exists j :: 0 <= j < |others| && Meet(s1, others[j]) == Some(x)
    decreases |others|
  {
    if others != [] {
      RowMeaning(s1, others[1..]);
      assert forall j :: 1 <= j < |others| ==> others[j] == others[1..][j - 1];
    }
  }

  /** The crossings of each of `first` with each of `second`, row by row. */
  function AllRows(first: seq<Section>, second: seq<Section>): seq<Intersection>
  {
    if first == [] then [] else Row(first[0], second) + AllRows(first[1..], second)
  }

  /** The crossings of two lists are exactly the meetings of a section of the first with one of the second. */
  lemma {:induction false} AllRowsMeaning(first: seq<Section>, second: seq<Section>)
    ensures forall x :: x in AllRows(first, second) <==>
      exists i, j :: 0 <= i < |first| && 0 <= j < |second| && Meet(first[i], second[j]) == Some(x)
    decreases |first|
  {
    if first != [] {
      RowMeaning(first[0], second);
      AllRowsMeaning(first[1..], second);
      assert forall i :: 1 <= i < |first| ==> first[i] == first[1..][i - 1];
    }
  }

  /** The crossings of two wires' sections; the first section of each wire is skipped. */
  function FindIntersections(wire1: seq<Section>, wire2: seq<Section>): seq<Intersection>
  {
    AllRows(if wire1 == [] then [] else wire1[1..], if wire2 == [] then [] else wire2[1..])
  }

  /** A crossing is found exactly when some section after the first of each wire meets one of the other's. */
  lemma FindIntersectionsMeaning(wire1: seq<Section>, wire2: seq<Section>, x: Intersection)
    ensures x in FindIntersections(wire1, wire2) <==>
      exists i, j :: 1 <= i < |wire1| && 1 <= j < |wire2| && Meet(wire1[i], wire2[j]) == Some(x)
  {
    var a := if wire1 == [] then [] else wire1[1..];
    var b := if wire2 == [] then [] else wire2[1..];
    AllRowsMeaning(a, b);
    if x in FindIntersections(wire1, wire2) {
      var i, j :| 0 <= i < |a| && 0 <= j < |b| && Meet(a[i], b[j]) == Some(x);
      assert wire1[i + 1] == a[i] && wire2[j + 1] == b[j];
    }
    if exists i, j :: 1 <= i < |wire1| && 1 <= j < |wire2| && Meet(wire1[i], wire2[j]) == Some(x) {
      var i, j :| 1 <= i < |wire1| && 1 <= j < |wire2| && Meet(wire1[i], wire2[j]) == Some(x);
      assert a[i - 1] == wire1[i] && b[j - 1] == wire2[j];
    }
  }

  // ---------------------------------------------------------------------------
  // Choosing a crossing
  // ---------------------------------------------------------------------------

  function Manhattan(p: Position): nat { Abs(p.x) + Abs(p.y) }

  /** One step of the nearest-to-the-port fold: a strictly nearer crossing replaces the best so far. */
  function CloserStep(acc: Intersection, i: Intersection): Intersection
  {
    var dist := Manhattan(i.pos);
    if dist < acc.dist then Intersection(i.pos, dist) else acc
  }

  /**
   * The nearest-to-the-port fold from `acc`: it ends on `acc` if nothing is
   * strictly nearer than `acc.dist`, and otherwise on the first crossing of
   * least Manhattan distance, with that distance.
   */
  function FoldClosest(acc: Intersection, xs: seq<Intersection>): (r: Intersection)
    ensures r.dist <= acc.dist
    ensures forall k :: 0 <= k < |xs| ==> r.dist <= Manhattan(xs[k].pos)
    ensures r == acc || exists k :: (0 <= k < |xs| && r == Intersection(xs[k].pos, Manhattan(xs[k].pos)) &&
      r.dist < acc.dist && forall j :: 0 <= j < k ==> Manhattan(xs[j].pos) > r.dist)
    ensures r == acc ==> forall k :: 0 <= k < |xs| ==> Manhattan(xs[k].pos) >= acc.dist
    decreases |xs|
  {
    if xs == [] then acc
    else
      var r := FoldClosest(CloserStep(acc, xs[0]), xs[1..]);
      assert forall k :: 1 <= k < |xs| ==> xs[k] == xs[1..][k - 1];
      r
  }

  /** Part one: the crossing nearest to the port by Manhattan distance. */
  function FindClosestStart(xs: seq<Intersection>): Intersection
  {
    FoldClosest(EMPTY, xs)
  }

  /**
   * Part one finds the first crossing of least Manhattan distance, with that
   * distance, when one lies nearer than the largest i32; otherwise it gives
   * the empty seed back.
   */
  lemma FindClosestStartMeaning(xs: seq<Intersection>)
    ensures var r := FindClosestStart(xs);
      (r == EMPTY <==> forall k :: 0 <= k < |xs| ==> Manhattan(xs[k].pos) >= I32_MAX) &&
      (r != EMPTY ==> exists k :: (0 <= k < |xs| && r == Intersection(xs[k].pos, Manhattan(xs[k].pos)) &&
        (forall j :: 0 <= j < |xs| ==> Manhattan(xs[j].pos) >= r.dist) &&
        (forall j :: 0 <= j < k ==> Manhattan(xs[j].pos) > r.dist)))
  {
  }

  /** One step of the shortest-walk fold: a crossing with strictly less walking replaces the best so far. */
  function ShorterStep(acc: Intersection, i: Intersection): Intersection
  {
    if i.dist < acc.dist then i else acc
  }

  /**
   * The shortest-walk fold from `acc`: it ends on `acc` if no crossing walks
   * strictly less than `acc.dist`, and otherwise on the first crossing of
   * least walking distance.
   */
  function FoldShortest(acc: Intersection, xs: seq<Intersection>): (r: Intersection)
    ensures r.dist <= acc.dist
    ensures forall k :: 0 <= k < |xs| ==> r.dist <= xs[k].dist
    ensures r == acc || exists k :: (0 <= k < |xs| && r == xs[k] &&
      r.dist < acc.dist && forall j :: 0 <= j < k ==> xs[j].dist > r.dist)
    ensures r == acc ==> forall k :: 0 <= k < |xs| ==> xs[k].dist >= acc.dist
    decreases |xs|
  {
    if xs == [] then acc
    else
      var r := FoldShortest(ShorterStep(acc, xs[0]), xs[1..]);
      assert forall k :: 1 <= k < |xs| ==> xs[k] == xs[1..][k - 1];
      r
  }

  /** Part two: the crossing both wires reach with the least combined walking. */
  function FindShortestStart(xs: seq<Intersection>): Intersection
  {
    FoldShortest(EMPTY, xs)
  }

  /**
   * Part two finds the first crossing of least combined walking when one
   * walks less than the largest i32; otherwise it gives the empty seed back.
   */
  lemma FindShortestStartMeaning(xs: seq<Intersection>)
    ensures var r := FindShortestStart(xs);
      (r == EMPTY <==> forall k :: 0 <= k < |xs| ==> xs[k].dist >= I32_MAX) &&
      (r != EMPTY ==> exists k :: (0 <= k < |xs| && r == xs[k] &&
        (forall j :: 0 <= j < |xs| ==> xs[j].dist >= r.dist) &&
        (forall j :: 0 <= j < k ==> xs[j].dist > r.dist)))
  {
  }
}
