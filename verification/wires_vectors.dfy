/** The worked example of the crossed-wires puzzle: "R8,U5,L5,D3" against
    "U7,R6,D4,L4" meet at (6, 5) and (3, 3); the nearest crossing is 6 from the
    origin and the cheapest costs 15 + 15 = 30 steps. */
module WiresVectors {
  import opened Wrappers
  import opened Wires
  import Text

  /** Joining a field onto at least one more puts a comma between. */
  lemma JoinStep(f: string, rest: seq<string>)
    requires |rest| >= 1
    ensures Text.Join([f] + rest, ',') == f + "," + Text.Join(rest, ',')
  {
    assert ([f] + rest)[1..] == rest;
  }

  /** The first wire of the worked example, "R8,U5,L5,D3". */
  function FirstSegments(): seq<Segment>
  {
    [Segment(Right, 8), Segment(Up, 5), Segment(Left, 5), Segment(Down, 3)]
  }

  /** The second wire of the worked example, "U7,R6,D4,L4". */
  function SecondSegments(): seq<Segment>
  {
    [Segment(Up, 7), Segment(Right, 6), Segment(Down, 4), Segment(Left, 4)]
  }

  /** The points the first wire visits, leg by leg. */
  function FirstPoints(): seq<Point>
  {
    [Point(1, 0), Point(2, 0), Point(3, 0), Point(4, 0), Point(5, 0), Point(6, 0), Point(7, 0), Point(8, 0)]
      + ([Point(8, 1), Point(8, 2), Point(8, 3), Point(8, 4), Point(8, 5)]
      + ([Point(7, 5), Point(6, 5), Point(5, 5), Point(4, 5), Point(3, 5)]
      + ([Point(3, 4), Point(3, 3), Point(3, 2)])))
  }

  /** The points the second wire visits, leg by leg. */
  function SecondPoints(): seq<Point>
  {
    [Point(0, 1), Point(0, 2), Point(0, 3), Point(0, 4), Point(0, 5), Point(0, 6), Point(0, 7)]
      + ([Point(1, 7), Point(2, 7), Point(3, 7), Point(4, 7), Point(5, 7), Point(6, 7)]
      + ([Point(6, 6), Point(6, 5), Point(6, 4), Point(6, 3)]
      + ([Point(5, 3), Point(4, 3), Point(3, 3), Point(2, 3)])))
  }

  /** A walk is the first segment's leg followed by the walk of the rest from its end. */
  lemma WalkStep(p: Point, seg: Segment, rest: seq<Segment>)
    ensures Walk(p, [seg] + rest) == Leg(p, seg.direction, Count(seg)) + Walk(MoveBy(p, seg.direction, Count(seg)), rest)
  {
    assert ([seg] + rest)[1..] == rest;
  }

  /** The legs of "R8,U5,L5,D3", one lemma each. */
  lemma FirstLeg0()
    ensures Leg(Point(0, 0), Right, 8) == [Point(1, 0), Point(2, 0), Point(3, 0), Point(4, 0), Point(5, 0), Point(6, 0), Point(7, 0), Point(8, 0)]
    ensures MoveBy(Point(0, 0), Right, 8) == Point(8, 0)
  {
  }

  lemma FirstLeg1()
    ensures Leg(Point(8, 0), Up, 5) == [Point(8, 1), Point(8, 2), Point(8, 3), Point(8, 4), Point(8, 5)]
    ensures MoveBy(Point(8, 0), Up, 5) == Point(8, 5)
  {
  }

  lemma FirstLeg2()
    ensures Leg(Point(8, 5), Left, 5) == [Point(7, 5), Point(6, 5), Point(5, 5), Point(4, 5), Point(3, 5)]
    ensures MoveBy(Point(8, 5), Left, 5) == Point(3, 5)
  {
  }

  lemma FirstLeg3()
    ensures Leg(Point(3, 5), Down, 3) == [Point(3, 4), Point(3, 3), Point(3, 2)]
    ensures MoveBy(Point(3, 5), Down, 3) == Point(3, 2)
  {
  }

  /** The walks of the last segments of "R8,U5,L5,D3", from the back. */
  lemma FirstFrom3()
    ensures Walk(Point(3, 5), [Segment(Down, 3)]) == [Point(3, 4), Point(3, 3), Point(3, 2)]
  {
    FirstLeg3();
    WalkStep(Point(3, 5), Segment(Down, 3), []);
    assert [Point(3, 4), Point(3, 3), Point(3, 2)] + [] == [Point(3, 4), Point(3, 3), Point(3, 2)];
  }

  lemma FirstFrom2()
    ensures Walk(Point(8, 5), [Segment(Left, 5), Segment(Down, 3)]) == [Point(7, 5), Point(6, 5), Point(5, 5), Point(4, 5), Point(3, 5)] + ([Point(3, 4), Point(3, 3), Point(3, 2)])
  {
    FirstLeg2();
    WalkStep(Point(8, 5), Segment(Left, 5), [Segment(Down, 3)]);
    FirstFrom3();
  }

  lemma FirstFrom1()
    ensures Walk(Point(8, 0), [Segment(Up, 5), Segment(Left, 5), Segment(Down, 3)]) == [Point(8, 1), Point(8, 2), Point(8, 3), Point(8, 4), Point(8, 5)] + ([Point(7, 5), Point(6, 5), Point(5, 5), Point(4, 5), Point(3, 5)] + ([Point(3, 4), Point(3, 3), Point(3, 2)]))
  {
    FirstLeg1();
    WalkStep(Point(8, 0), Segment(Up, 5), [Segment(Left, 5), Segment(Down, 3)]);
    FirstFrom2();
  }

  lemma FirstFrom0()
    ensures Walk(Point(0, 0), [Segment(Right, 8), Segment(Up, 5), Segment(Left, 5), Segment(Down, 3)]) == [Point(1, 0), Point(2, 0), Point(3, 0), Point(4, 0), Point(5, 0), Point(6, 0), Point(7, 0), Point(8, 0)] + ([Point(8, 1), Point(8, 2), Point(8, 3), Point(8, 4), Point(8, 5)] + ([Point(7, 5), Point(6, 5), Point(5, 5), Point(4, 5), Point(3, 5)] + ([Point(3, 4), Point(3, 3), Point(3, 2)])))
  {
    FirstLeg0();
    WalkStep(Point(0, 0), Segment(Right, 8), [Segment(Up, 5), Segment(Left, 5), Segment(Down, 3)]);
    FirstFrom1();
  }

  lemma FirstWalkPoints()
    ensures Walk(Point(0, 0), FirstSegments()) == FirstPoints()
  {
    FirstFrom0();
  }

  /** The legs of "U7,R6,D4,L4", one lemma each. */
  lemma SecondLeg0()
    ensures Leg(Point(0, 0), Up, 7) == [Point(0, 1), Point(0, 2), Point(0, 3), Point(0, 4), Point(0, 5), Point(0, 6), Point(0, 7)]
    ensures MoveBy(Point(0, 0), Up, 7) == Point(0, 7)
  {
  }

  lemma SecondLeg1()
    ensures Leg(Point(0, 7), Right, 6) == [Point(1, 7), Point(2, 7), Point(3, 7), Point(4, 7), Point(5, 7), Point(6, 7)]
    ensures MoveBy(Point(0, 7), Right, 6) == Point(6, 7)
  {
  }

  lemma SecondLeg2()
    ensures Leg(Point(6, 7), Down, 4) == [Point(6, 6), Point(6, 5), Point(6, 4), Point(6, 3)]
    ensures MoveBy(Point(6, 7), Down, 4) == Point(6, 3)
  {
  }

  lemma SecondLeg3()
    ensures Leg(Point(6, 3), Left, 4) == [Point(5, 3), Point(4, 3), Point(3, 3), Point(2, 3)]
    ensures MoveBy(Point(6, 3), Left, 4) == Point(2, 3)
  {
  }

  /** The walks of the last segments of "U7,R6,D4,L4", from the back. */
  lemma SecondFrom3()
    ensures Walk(Point(6, 3), [Segment(Left, 4)]) == [Point(5, 3), Point(4, 3), Point(3, 3), Point(2, 3)]
  {
    SecondLeg3();
    WalkStep(Point(6, 3), Segment(Left, 4), []);
    assert [Point(5, 3), Point(4, 3), Point(3, 3), Point(2, 3)] + [] == [Point(5, 3), Point(4, 3), Point(3, 3), Point(2, 3)];
  }

  lemma SecondFrom2()
    ensures Walk(Point(6, 7), [Segment(Down, 4), Segment(Left, 4)]) == [Point(6, 6), Point(6, 5), Point(6, 4), Point(6, 3)] + ([Point(5, 3), Point(4, 3), Point(3, 3), Point(2, 3)])
  {
    SecondLeg2();
    WalkStep(Point(6, 7), Segment(Down, 4), [Segment(Left, 4)]);
    SecondFrom3();
  }

  lemma SecondFrom1()
    ensures Walk(Point(0, 7), [Segment(Right, 6), Segment(Down, 4), Segment(Left, 4)]) == [Point(1, 7), Point(2, 7), Point(3, 7), Point(4, 7), Point(5, 7), Point(6, 7)] + ([Point(6, 6), Point(6, 5), Point(6, 4), Point(6, 3)] + ([Point(5, 3), Point(4, 3), Point(3, 3), Point(2, 3)]))
  {
    SecondLeg1();
    WalkStep(Point(0, 7), Segment(Right, 6), [Segment(Down, 4), Segment(Left, 4)]);
    SecondFrom2();
  }

  lemma SecondFrom0()
    ensures Walk(Point(0, 0), [Segment(Up, 7), Segment(Right, 6), Segment(Down, 4), Segment(Left, 4)]) == [Point(0, 1), Point(0, 2), Point(0, 3), Point(0, 4), Point(0, 5), Point(0, 6), Point(0, 7)] + ([Point(1, 7), Point(2, 7), Point(3, 7), Point(4, 7), Point(5, 7), Point(6, 7)] + ([Point(6, 6), Point(6, 5), Point(6, 4), Point(6, 3)] + ([Point(5, 3), Point(4, 3), Point(3, 3), Point(2, 3)])))
  {
    SecondLeg0();
    WalkStep(Point(0, 0), Segment(Up, 7), [Segment(Right, 6), Segment(Down, 4), Segment(Left, 4)]);
    SecondFrom1();
  }

  lemma SecondWalkPoints()
    ensures Walk(Point(0, 0), SecondSegments()) == SecondPoints()
  {
    SecondFrom0();
  }

  /** The four straight runs the first wire covers. */
  predicate OnFirstPath(p: Point)
  {
    || (p.y == 0 && 1 <= p.x <= 8)
    || (p.x == 8 && 1 <= p.y <= 5)
    || (p.y == 5 && 3 <= p.x <= 7)
    || (p.x == 3 && 2 <= p.y <= 4)
  }

  lemma FirstPathCovers(j: int)
    requires 0 <= j < |FirstPoints()|
    ensures OnFirstPath(FirstPoints()[j])
  {
  }

  /** Only points 14 and 19 of the second wire lie on the first. */
  lemma SecondMeetsFirst(i: int)
    requires 0 <= i < |SecondPoints()| && OnFirstPath(SecondPoints()[i])
    ensures i == 14 || i == 19
  {
  }

  /** The first wire passes (6, 5) and (3, 3) once each. */
  lemma FirstPassesOnce(j: int)
    requires 0 <= j < |FirstPoints()|
    ensures FirstPoints()[j] == Point(6, 5) ==> j == 14
    ensures FirstPoints()[j] == Point(3, 3) ==> j == 19
  {
  }

  /** The nearest crossing is found at a point of `w2` on `w1` no other
      such point beats. */
  lemma NearestFrom(w1: seq<Point>, w2: seq<Point>, i0: int, v: nat)
    requires 0 <= i0 < |w2| && w2[i0] in w1 && Manhattan(w2[i0]) == v
    requires forall i :: 0 <= i < |w2| && w2[i] in w1 ==> v <= Manhattan(w2[i])
    ensures NearestIn((set p | p in w1), w2) == Some(v)
  {
    var s := set p | p in w1;
    var r := NearestIn(s, w2);
    assert w2[i0] in s;
    assert r.Some? && r.value <= v;
    var i :| 0 <= i < |w2| && w2[i] in s && Manhattan(w2[i]) == r.value;
    assert w2[i] in w1;
  }

  /** The points of the second wire on the first are no nearer than 6. */
  lemma SecondCrossingsFar()
    ensures forall i :: 0 <= i < |SecondPoints()| && SecondPoints()[i] in FirstPoints() ==> 6 <= Manhattan(SecondPoints()[i])
  {
    forall i | 0 <= i < |SecondPoints()| && SecondPoints()[i] in FirstPoints()
      ensures 6 <= Manhattan(SecondPoints()[i])
    {
      var j :| 0 <= j < |FirstPoints()| && FirstPoints()[j] == SecondPoints()[i];
      FirstPathCovers(j);
      SecondMeetsFirst(i);
    }
  }

  /** The crossing nearest the origin is (3, 3), at distance 6. */
  lemma NearestWorkedExample()
    ensures NearestIn((set p | p in Walk(Point(0, 0), FirstSegments())), Walk(Point(0, 0), SecondSegments())) == Some(6)
  {
    FirstWalkPoints();
    SecondWalkPoints();
    NearestOnPoints();
  }

  lemma NearestOnPoints()
    ensures NearestIn((set p | p in FirstPoints()), SecondPoints()) == Some(6)
  {
    assert SecondPoints()[19] == FirstPoints()[19];
    SecondCrossingsFar();
    NearestFrom(FirstPoints(), SecondPoints(), 19, 6);
  }

  /** The fewest combined steps is found at a pair of coinciding points no
      other pair beats. */
  lemma FewestFrom(w1: seq<Point>, w2: seq<Point>, steps: map<Point, nat>, i0: int, j0: int, v: nat)
    requires FirstStepsOf(w1, steps)
    requires CrossingAt(w1, w2, i0, j0, v)
    requires forall i, j :: 0 <= i < |w2| && 0 <= j < |w1| && w2[i] == w1[j] ==> v <= i + j + 2
    ensures FewestIn(steps, w2) == Some(v)
  {
    FewestCrossing(w1, w2, steps);
    PinFewest(w1, w2, FewestIn(steps, w2), i0, j0, v);
  }

  /** A least combined step count that a known crossing of cost `v` matches
      and that no crossing beats is `v` itself. */
  lemma PinFewest(w1: seq<Point>, w2: seq<Point>, fewest: Option<nat>, i0: int, j0: int, v: nat)
    requires fewest.None? <==> forall i, j :: 0 <= i < |w2| && 0 <= j < |w1| ==> w2[i] != w1[j]
    requires fewest.Some? ==>
      && (exists i, j :: CrossingAt(w1, w2, i, j, fewest.value))
      && forall i, j :: 0 <= i < |w2| && 0 <= j < |w1| && w2[i] == w1[j] ==> fewest.value <= i + j + 2
    requires CrossingAt(w1, w2, i0, j0, v)
    requires forall i, j :: 0 <= i < |w2| && 0 <= j < |w1| && w2[i] == w1[j] ==> v <= i + j + 2
    ensures fewest == Some(v)
  {
    assert w2[i0] == w1[j0];
    assert fewest.Some? && fewest.value <= v;
    var i, j :| CrossingAt(w1, w2, i, j, fewest.value);
    assert v <= i + j + 2;
  }

  /** The coinciding pairs of the two wires take at least 30 steps. */
  lemma CrossingsCostly()
    ensures forall i, j :: 0 <= i < |SecondPoints()| && 0 <= j < |FirstPoints()| && SecondPoints()[i] == FirstPoints()[j] ==> 30 <= i + j + 2
  {
    forall i, j | 0 <= i < |SecondPoints()| && 0 <= j < |FirstPoints()| && SecondPoints()[i] == FirstPoints()[j]
      ensures 30 <= i + j + 2
    {
      FirstPathCovers(j);
      SecondMeetsFirst(i);
      FirstPassesOnce(j);
    }
  }

  /** Over the first wire's first step counts, the fewest combined steps is
      30, at (6, 5). */
  lemma FewestWorkedExample(steps: map<Point, nat>)
    requires FirstStepsOf(Walk(Point(0, 0), FirstSegments()), steps)
    ensures FewestIn(steps, Walk(Point(0, 0), SecondSegments())) == Some(30)
  {
    FirstWalkPoints();
    SecondWalkPoints();
    FewestOnPoints(steps);
  }

  lemma FewestOnPoints(steps: map<Point, nat>)
    requires FirstStepsOf(FirstPoints(), steps)
    ensures FewestIn(steps, SecondPoints()) == Some(30)
  {
    assert CrossingAt(FirstPoints(), SecondPoints(), 14, 14, 30);
    CrossingsCostly();
    FewestFrom(FirstPoints(), SecondPoints(), steps, 14, 14, 30);
  }

  /** "R8,U5,L5,D3" is the rendering of the first wire. */
  lemma RenderFirst()
    ensures RenderWire(FirstSegments()) == "R8,U5,L5,D3"
  {
    assert ShowSegment(Segment(Right, 8)) == "R8";
    assert ShowSegment(Segment(Up, 5)) == "U5";
    assert ShowSegment(Segment(Left, 5)) == "L5";
    assert ShowSegment(Segment(Down, 3)) == "D3";
    assert ShownSegments(FirstSegments()) == ["R8"] + (["U5"] + (["L5"] + ["D3"]));
    JoinStep("L5", ["D3"]);
    JoinStep("U5", ["L5"] + ["D3"]);
    JoinStep("R8", ["U5"] + (["L5"] + ["D3"]));
  }

  /** "U7,R6,D4,L4" is the rendering of the second wire. */
  lemma RenderSecond()
    ensures RenderWire(SecondSegments()) == "U7,R6,D4,L4"
  {
    assert ShowSegment(Segment(Up, 7)) == "U7";
    assert ShowSegment(Segment(Right, 6)) == "R6";
    assert ShowSegment(Segment(Down, 4)) == "D4";
    assert ShowSegment(Segment(Left, 4)) == "L4";
    assert ShownSegments(SecondSegments()) == ["U7"] + (["R6"] + (["D4"] + ["L4"]));
    JoinStep("D4", ["L4"]);
    JoinStep("R6", ["D4"] + ["L4"]);
    JoinStep("U7", ["R6"] + (["D4"] + ["L4"]));
  }

  /** The worked example's first line parses into the first wire. */
  lemma ParseFirstLine()
    ensures ReachedFields("R8,U5,L5,D3") && ParseWire("R8,U5,L5,D3") == Ok(FirstSegments())
  {
    RenderFirst();
    ParseRenderWire(FirstSegments());
  }

  /** The worked example's second line parses into the second wire. */
  lemma ParseSecondLine()
    ensures ReachedFields("U7,R6,D4,L4") && ParseWire("U7,R6,D4,L4") == Ok(SecondSegments())
  {
    RenderSecond();
    ParseRenderWire(SecondSegments());
  }

  /** On the worked example's walks, the nearest crossing is 6 away. */
  lemma NearestIsSix(v: nat)
    requires NearestDistance(FirstPoints(), SecondPoints(), v)
    ensures v == 6
  {
    var w1, w2 := FirstPoints(), SecondPoints();
    assert w2[19] == w1[19];
    var i :| 0 <= i < |w2| && w2[i] in (set p | p in w1) && Manhattan(w2[i]) == v;
    SecondCrossingsFar();
  }

  /** On the worked example's walks, the cheapest crossing costs 30 steps. */
  lemma FewestIsThirty(v: nat)
    requires FewestSteps(FirstPoints(), SecondPoints(), v)
    ensures v == 30
  {
    var w1, w2 := FirstPoints(), SecondPoints();
    assert CrossingAt(w1, w2, 14, 14, 30);
    var i, j :| CrossingAt(w1, w2, i, j, v);
    CrossingsCostly();
  }

  /** `find_minimum_distance("R8,U5,L5,D3", "U7,R6,D4,L4") == Ok(6)`. */
  method MinimumDistanceExample() returns (r: Result<nat, WireError>)
    ensures r == Ok(6)
  {
    ParseFirstLine();
    ParseSecondLine();
    r := MinimumDistance("R8,U5,L5,D3", "U7,R6,D4,L4");
    FirstWalkPoints();
    SecondWalkPoints();
    NearestIsSix(r.value);
  }

  /** `find_minimum_combined_steps("R8,U5,L5,D3", "U7,R6,D4,L4") == Ok(30)`. */
  method MinimumCombinedStepsExample() returns (r: Result<nat, WireError>)
    ensures r == Ok(30)
  {
    ParseFirstLine();
    ParseSecondLine();
    r := MinimumCombinedSteps("R8,U5,L5,D3", "U7,R6,D4,L4");
    FirstWalkPoints();
    SecondWalkPoints();
    FewestIsThirty(r.value);
  }

  /** A line whose first field has a bad letter fails on it: the empty field
      after the comma is never sliced. */
  lemma BadFirstField()
    ensures ReachedFields("X,") && ParseWire("X,") == Err(InvalidDirection)
  {
    JoinStep("X", [""]);
    assert Text.Join(["X", ""], ',') == "X,";
    Text.SplitJoin(["X", ""], ',');
    assert ParseSegment("X") == Err(InvalidDirection);
  }

  /** `find_minimum_distance("X", "")` fails on the first wire and never
      slices the second wire's empty field. */
  method MinimumDistanceBadFirst() returns (r: Result<nat, WireError>)
    ensures r == Err(InvalidDirection)
  {
    assert Text.Join(["X"], ',') == "X";
    Text.SplitJoin(["X"], ',');
    assert ParseSegment("X") == Err(InvalidDirection);
    r := MinimumDistance("X", "");
  }
}
