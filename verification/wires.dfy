/** Crossed wires: wire paths written as comma-separated segments, the points a
    path visits one unit step at a time, and the crossing nearest to the origin
    by Manhattan distance and by combined step count. */
module Wires {
  import opened Wrappers
  import RustInt
  import Decimal
  import Text

  datatype Direction = Right | Left | Down | Up

  /** One leg of a path: a direction and an `i32` distance. */
  datatype Segment = Segment(direction: Direction, distance: int)

  datatype Point = Point(x: int, y: int)

  /** The two parse errors: a bad direction letter, a bad distance. */
  datatype WireError = InvalidDirection | InvalidNumber

  /** `Direction::from_str`: exactly one of the letters D, L, U, R. */
  function ParseDirection(s: string): (r: Result<Direction, WireError>)
    ensures r.Ok? <==> s == "D" || s == "L" || s == "U" || s == "R"
    ensures r.Err? ==> r.error == InvalidDirection
  {
    if s == "D" then Ok(Down)
    else if s == "L" then Ok(Left)
    else if s == "U" then Ok(Up)
    else if s == "R" then Ok(Right)
    else Err(InvalidDirection)
  }

  /** The letter of a direction. */
  function Letter(d: Direction): char
  {
    match d
    case Down => 'D'
    case Left => 'L'
    case Up => 'U'
    case Right => 'R'
  }

  /** The first byte of the field is a whole character, so `s[..1]` does not panic. */
  predicate Sliceable(s: string)
  {
    |s| >= 1 && s[0] as int < 128
  }

  /** `Segment::from_str`: the first character is the direction and the rest
      an `i32`; the direction is checked first. */
  function ParseSegment(s: string): (r: Result<Segment, WireError>)
    requires Sliceable(s)
    ensures r.Ok? <==> ParseDirection(s[..1]).Ok? && Decimal.Parse(s[1..], RustInt.I32Min, RustInt.I32Max).Ok?
    ensures ParseDirection(s[..1]).Err? ==> r == Err(InvalidDirection)
    ensures r.Ok? ==> Letter(r.value.direction) == s[0] && RustInt.I32Min <= r.value.distance <= RustInt.I32Max
  {
    var direction :- ParseDirection(s[..1]);
    match Decimal.Parse(s[1..], RustInt.I32Min, RustInt.I32Max)
    case Ok(distance) => Ok(Segment(direction, distance))
    case Err(_) => Err(InvalidNumber)
  }

  /** A segment written back as a letter and a decimal distance. */
  function ShowSegment(seg: Segment): string
  {
    [Letter(seg.direction)] + Decimal.Show(seg.distance)
  }

  /** Parsing a written segment with an `i32` distance gives it back. */
  lemma ParseShowSegment(seg: Segment)
    requires RustInt.I32Min <= seg.distance <= RustInt.I32Max
    ensures Sliceable(ShowSegment(seg)) && ParseSegment(ShowSegment(seg)) == Ok(seg)
  {
    var s := ShowSegment(seg);
    assert s[..1] == [Letter(seg.direction)];
    assert s[1..] == Decimal.Show(seg.distance);
    Decimal.ParseShow(seg.distance, RustInt.I32Min, RustInt.I32Max);
  }

  /** The comma-separated fields of a wire's line. */
  function Fields(line: string): seq<string>
  {
    Text.Split(line, ',')
  }

  /** A field that can be sliced and parses as a segment. */
  predicate Parses(s: string)
  {
    Sliceable(s) && ParseSegment(s).Ok?
  }

  /** Every field the short-circuiting collect looks at can be sliced: the
      fields up to and including the first one that fails to parse. */
  predicate FieldsReached(fields: seq<string>)
    decreases |fields|
  {
    |fields| == 0 || (Sliceable(fields[0]) && (ParseSegment(fields[0]).Ok? ==> FieldsReached(fields[1..])))
  }

  /** Every field the collect looks at in the line can be sliced. */
  predicate ReachedFields(line: string)
  {
    FieldsReached(Fields(line))
  }

  /** Field `i` is the first one that does not parse. */
  predicate FailsFirstAt(fields: seq<string>, i: int)
  {
    && 0 <= i < |fields|
    && (forall j :: 0 <= j < i ==> Parses(fields[j]))
    && Sliceable(fields[i]) && ParseSegment(fields[i]).Err?
  }

  /** Fields that all slice are all reached. */
  lemma {:induction false} AllSliceableReached(fields: seq<string>)
    requires forall i :: 0 <= i < |fields| ==> Sliceable(fields[i])
    ensures FieldsReached(fields)
    decreases |fields|
  {
    if |fields| > 0 {
      assert forall i :: 0 <= i < |fields| - 1 ==> fields[1..][i] == fields[i + 1];
      AllSliceableReached(fields[1..]);
    }
  }

  /** A first failure after a field that parses is a first failure one place later. */
  lemma FailsFirstLater(fields: seq<string>)
    requires |fields| > 0 && Parses(fields[0])
    ensures forall k :: FailsFirstAt(fields[1..], k) ==> FailsFirstAt(fields, k + 1) && fields[1..][k] == fields[k + 1]
  {
    forall k | FailsFirstAt(fields[1..], k)
      ensures FailsFirstAt(fields, k + 1)
    {
      forall j | 0 <= j < k + 1
        ensures Parses(fields[j])
      {
        if j > 0 {
          assert fields[j] == fields[1..][j - 1];
        }
      }
    }
  }

  /** Collecting the segments of fields into a `Result<Vec<Segment>, _>`:
      the first field that fails decides the error. */
  function ParseSegments(fields: seq<string>): (r: Result<seq<Segment>, WireError>)
    requires FieldsReached(fields)
    ensures r.Ok? <==> forall i :: 0 <= i < |fields| ==> Parses(fields[i])
    ensures r.Ok? ==> |r.value| == |fields| && forall i :: 0 <= i < |fields| ==> r.value[i] == ParseSegment(fields[i]).value
    ensures r.Err? ==> exists i :: FailsFirstAt(fields, i) && r.error == ParseSegment(fields[i]).error
    decreases |fields|
  {
    if |fields| == 0 then Ok([])
    else
      match ParseSegment(fields[0])
      case Err(e) =>
        assert FailsFirstAt(fields, 0);
        Err(e)
      case Ok(seg) =>
        match ParseSegments(fields[1..])
        case Err(e) =>
          FailsFirstLater(fields);
          Err(e)
        case Ok(rest) =>
          ParsesCons(fields, rest);
          Ok([seg] + rest)
  }

  /** The segments of the first field and of the rest, put together. */
  lemma ParsesCons(fields: seq<string>, rest: seq<Segment>)
    requires |fields| > 0 && Parses(fields[0]) && |rest| == |fields| - 1
    requires forall i :: 0 <= i < |rest| ==> Parses(fields[1..][i]) && rest[i] == ParseSegment(fields[1..][i]).value
    ensures forall i :: 0 <= i < |fields| ==> Parses(fields[i])
    ensures var all := [ParseSegment(fields[0]).value] + rest;
      forall i :: 0 <= i < |fields| ==> Parses(fields[i]) && all[i] == ParseSegment(fields[i]).value
  {
    var all := [ParseSegment(fields[0]).value] + rest;
    forall i | 0 <= i < |fields|
      ensures Parses(fields[i]) && all[i] == ParseSegment(fields[i]).value
    {
      if i > 0 {
        assert fields[i] == fields[1..][i - 1] && all[i] == rest[i - 1];
      }
    }
  }

  /** The segments of one wire's line. */
  function ParseWire(line: string): (r: Result<seq<Segment>, WireError>)
    requires ReachedFields(line)
    ensures r.Ok? <==> forall i :: 0 <= i < |Fields(line)| ==> Parses(Fields(line)[i])
    ensures r.Ok? ==> 1 <= |r.value| == |Fields(line)|
    ensures r.Err? ==> exists i :: FailsFirstAt(Fields(line), i) && r.error == ParseSegment(Fields(line)[i]).error
  {
    ParseSegments(Fields(line))
  }

  /** A written segment holds no comma. */
  lemma ShowSegmentNoComma(seg: Segment)
    ensures ',' !in ShowSegment(seg)
  {
    var t := Decimal.Show(seg.distance);
    Decimal.ShowChars(seg.distance);
    assert forall k :: 0 <= k < |t| ==> t[k] != ',';
    var w := ShowSegment(seg);
    assert w == [Letter(seg.direction)] + t;
    assert forall k :: 1 <= k < |w| ==> w[k] == t[k - 1];
    assert forall k :: 0 <= k < |w| ==> w[k] != ',';
  }

  /** Each segment written out. */
  function ShownSegments(segs: seq<Segment>): (fields: seq<string>)
    ensures |fields| == |segs|
    ensures forall i :: 0 <= i < |segs| ==> fields[i] == ShowSegment(segs[i])
  {
    if |segs| == 0 then [] else [ShowSegment(segs[0])] + ShownSegments(segs[1..])
  }

  /** A wire written as the line `find_minimum_distance` reads. */
  function RenderWire(segs: seq<Segment>): string
  {
    Text.Join(ShownSegments(segs), ',')
  }

  /** Parsing the line of a non-empty wire whose distances are `i32` values
      gives the wire back. */
  lemma ParseRenderWire(segs: seq<Segment>)
    requires |segs| >= 1
    requires forall i :: 0 <= i < |segs| ==> RustInt.I32Min <= segs[i].distance <= RustInt.I32Max
    ensures ReachedFields(RenderWire(segs)) && ParseWire(RenderWire(segs)) == Ok(segs)
  {
    var fields := ShownSegments(segs);
    forall i | 0 <= i < |fields|
      ensures ',' !in fields[i] && Sliceable(fields[i]) && ParseSegment(fields[i]) == Ok(segs[i])
    {
      ShowSegmentNoComma(segs[i]);
      ParseShowSegment(segs[i]);
    }
    Text.SplitJoin(fields, ',');
    AllSliceableReached(fields);
    var r := ParseSegments(fields);
    assert r.Ok? && |r.value| == |segs|;
    assert r.value == segs;
  }

  /** One unit step from `p`. */
  function Move(p: Point, d: Direction): Point
  {
    match d
    case Up => p.(y := p.y + 1)
    case Down => p.(y := p.y - 1)
    case Left => p.(x := p.x - 1)
    case Right => p.(x := p.x + 1)
  }

  /** `q` is one unit step away from `p`. */
  predicate Adjacent(p: Point, q: Point)
  {
    (p.x == q.x && (q.y == p.y + 1 || q.y == p.y - 1)) || (p.y == q.y && (q.x == p.x + 1 || q.x == p.x - 1))
  }

  /** `n` steps from `p` in direction `d`. */
  function MoveBy(p: Point, d: Direction, n: nat): Point
    decreases n
  {
    if n == 0 then p else MoveBy(Move(p, d), d, n - 1)
  }

  /** How many points a segment emits: its distance, but at least one. */
  function Count(seg: Segment): (n: nat)
    ensures n >= 1
    ensures seg.distance >= 1 ==> n == seg.distance
    ensures seg.distance < 1 ==> n == 1
  {
    if seg.distance > 0 then seg.distance else 1
  }

  /** The `n` points after `p` in direction `d`, nearest first. */
  function Leg(p: Point, d: Direction, n: nat): (pts: seq<Point>)
    ensures |pts| == n
    decreases n
  {
    if n == 0 then [] else [Move(p, d)] + Leg(Move(p, d), d, n - 1)
  }

  /** The points of a path from `p`, the starting point itself excluded: each
      segment's leg starts where the previous one ended. */
  function Walk(p: Point, segs: seq<Segment>): seq<Point>
    decreases |segs|
  {
    if |segs| == 0 then []
    else Leg(p, segs[0].direction, Count(segs[0])) + Walk(MoveBy(p, segs[0].direction, Count(segs[0])), segs[1..])
  }

  /** The state of the `Points` iterator. */
  datatype Points = Points(segments: seq<Segment>, position: Point, direction: Option<Direction>, remaining: int)

  /** `Points::new`: at the origin, no segment started. */
  function NewPoints(segs: seq<Segment>): Points
  {
    Points(segs, Point(0, 0), None, 0)
  }

  /** `Points::next`: continue the current segment or start the next one, take
      one step, and keep the direction only while distance remains. */
  function Next(it: Points): (r: Option<(Point, Points)>)
    ensures r.None? <==> it.direction.None? && |it.segments| == 0
    ensures r.Some? ==> Adjacent(it.position, r.value.0) && r.value.1.position == r.value.0 && Valid(r.value.1)
  {
    if it.direction.None? && |it.segments| == 0 then None
    else
      var (direction, segments, remaining) :=
        if it.direction.Some? then (it.direction.value, it.segments, it.remaining)
        else (it.segments[0].direction, it.segments[1..], it.segments[0].distance);
      var position := Move(it.position, direction);
      var remaining' := remaining - 1;
      Some((position, Points(segments, position, if remaining' > 0 then Some(direction) else None, remaining')))
  }

  /** A direction is held only while distance remains, as `next` maintains. */
  predicate Valid(it: Points)
  {
    it.direction.Some? ==> it.remaining > 0
  }

  /** The points the iterator has yet to yield. */
  function Pending(it: Points): seq<Point>
    requires Valid(it)
  {
    if it.direction.Some? then
      Leg(it.position, it.direction.value, it.remaining) + Walk(MoveBy(it.position, it.direction.value, it.remaining), it.segments)
    else Walk(it.position, it.segments)
  }

  /** How many more points the iterator yields. */
  function Size(segs: seq<Segment>): nat
  {
    if |segs| == 0 then 0 else Count(segs[0]) + Size(segs[1..])
  }

  function Measure(it: Points): nat
    requires Valid(it)
  {
    (if it.direction.Some? then it.remaining else 0) + Size(it.segments)
  }

  /** A leg taken one step at a time. */
  lemma LegStep(p: Point, d: Direction, n: nat)
    requires n >= 1
    ensures Leg(p, d, n) == [Move(p, d)] + Leg(Move(p, d), d, n - 1)
    ensures MoveBy(p, d, n) == MoveBy(Move(p, d), d, n - 1)
  {
  }

  /** `next` yields the first pending point and leaves the rest pending;
      it yields nothing exactly when nothing is pending. */
  lemma NextPending(it: Points)
    requires Valid(it)
    ensures Next(it).None? <==> Pending(it) == []
    ensures Next(it).Some? ==>
      var (p, it') := Next(it).value;
      Valid(it') && Pending(it) == [p] + Pending(it') && Measure(it') < Measure(it)
  {
    if Next(it).Some? {
      var (p, it') := Next(it).value;
      if it.direction.Some? {
        var d := it.direction.value;
        LegStep(it.position, d, it.remaining);
        if it.remaining == 1 {
          assert Leg(Move(it.position, d), d, 0) == [];
        }
      } else {
        var seg := it.segments[0];
        LegStep(it.position, seg.direction, Count(seg));
        if Count(seg) == 1 {
          assert Leg(Move(it.position, seg.direction), seg.direction, 0) == [];
        }
      }
    } else {
      assert it.direction.None? && it.segments == [];
    }
  }

  /** Draining the iterator: `Points::new(segments).collect()`. */
  method Collect(segs: seq<Segment>) returns (points: seq<Point>)
    ensures points == Walk(Point(0, 0), segs)
  {
    var it := NewPoints(segs);
    points := [];
    while Next(it).Some?
      invariant Valid(it)
      invariant points + Pending(it) == Walk(Point(0, 0), segs)
      decreases Measure(it)
    {
      var next := Next(it).value;
      CollectStep(points, it);
      points, it := points + [next.0], next.1;
    }
    NextPending(it);
    assert points + [] == points;
  }

  /** Moving the point `next` yields from the pending points to the collected
      ones keeps their concatenation. */
  lemma CollectStep(points: seq<Point>, it: Points)
    requires Valid(it) && Next(it).Some?
    ensures var next := Next(it).value;
      && Valid(next.1)
      && (points + [next.0]) + Pending(next.1) == points + Pending(it)
      && Measure(next.1) < Measure(it)
  {
    NextPending(it);
    var next := Next(it).value;
    assert (points + [next.0]) + Pending(next.1) == points + ([next.0] + Pending(next.1));
  }

  /** Each segment contributes its count of points. */
  lemma {:induction false} WalkLength(p: Point, segs: seq<Segment>)
    ensures |Walk(p, segs)| == Size(segs)
    decreases |segs|
  {
    if |segs| > 0 {
      WalkLength(MoveBy(p, segs[0].direction, Count(segs[0])), segs[1..]);
    }
  }

  /** The last point of a non-empty leg is where the leg ends. */
  lemma {:induction false} LegEnd(p: Point, d: Direction, n: nat)
    requires n >= 1
    ensures Leg(p, d, n)[n - 1] == MoveBy(p, d, n)
    decreases n
  {
    if n > 1 {
      LegEnd(Move(p, d), d, n - 1);
    }
  }

  /** Consecutive points of a leg are one unit apart, and so is its start. */
  lemma {:induction false} LegUnitSteps(p: Point, d: Direction, n: nat)
    ensures n >= 1 ==> Adjacent(p, Leg(p, d, n)[0])
    ensures forall i :: 0 <= i < n - 1 ==> Adjacent(Leg(p, d, n)[i], Leg(p, d, n)[i + 1])
    decreases n
  {
    if n >= 1 {
      var q := Move(p, d);
      LegUnitSteps(q, d, n - 1);
      var l := Leg(p, d, n);
      assert l[1..] == Leg(q, d, n - 1);
      forall i | 0 <= i < n - 1
        ensures Adjacent(l[i], l[i + 1])
      {
        if i > 0 {
          assert l[i] == l[1..][i - 1] && l[i + 1] == l[1..][i];
        }
      }
    }
  }

  /** A walk moves one unit at a time: its first point is next to the start
      and each point is next to the one before it. */
  lemma {:induction false} WalkUnitSteps(p: Point, segs: seq<Segment>)
    ensures |Walk(p, segs)| > 0 ==> Adjacent(p, Walk(p, segs)[0])
    ensures forall i :: 0 <= i < |Walk(p, segs)| - 1 ==> Adjacent(Walk(p, segs)[i], Walk(p, segs)[i + 1])
    decreases |segs|
  {
    if |segs| > 0 {
      var d, n := segs[0].direction, Count(segs[0]);
      var q := MoveBy(p, d, n);
      var leg, rest := Leg(p, d, n), Walk(q, segs[1..]);
      var w := Walk(p, segs);
      assert w == leg + rest;
      LegUnitSteps(p, d, n);
      LegEnd(p, d, n);
      WalkUnitSteps(q, segs[1..]);
      forall i | 0 <= i < |w| - 1
        ensures Adjacent(w[i], w[i + 1])
      {
        if i < n - 1 {
          assert w[i] == leg[i] && w[i + 1] == leg[i + 1];
        } else if i == n - 1 {
          assert w[i] == q && w[i + 1] == rest[0];
        } else {
          assert w[i] == rest[i - n] && w[i + 1] == rest[i - n + 1];
        }
      }
    }
  }

  /** `|x| + |y|`. */
  function Manhattan(p: Point): nat
  {
    (if p.x < 0 then -p.x else p.x) + (if p.y < 0 then -p.y else p.y)
  }

  /** Some point of `w` inside `s` has distance `v`. */
  predicate Attained(w: seq<Point>, s: set<Point>, v: nat)
  {
    exists i :: 0 <= i < |w| && w[i] in s && Manhattan(w[i]) == v
  }

  lemma AttainedTail(w: seq<Point>, s: set<Point>, v: nat)
    requires |w| > 0 && Attained(w[1..], s, v)
    ensures Attained(w, s, v)
  {
    var i :| 0 <= i < |w[1..]| && w[1..][i] in s && Manhattan(w[1..][i]) == v;
    assert w[i + 1] == w[1..][i];
  }

  /** `filter(in s).map(manhattan).min()` over `w`. */
  function NearestIn(s: set<Point>, w: seq<Point>): (r: Option<nat>)
    ensures r.None? <==> forall i :: 0 <= i < |w| ==> w[i] !in s
    ensures r.Some? ==> Attained(w, s, r.value)
    ensures r.Some? ==> forall i :: 0 <= i < |w| && w[i] in s ==> r.value <= Manhattan(w[i])
  {
    if |w| == 0 then None
    else
      var rest := NearestIn(s, w[1..]);
      assert forall i :: 1 <= i < |w| ==> w[i] == w[1..][i - 1];
      if w[0] in s && (rest.None? || Manhattan(w[0]) <= rest.value) then
        assert Attained(w, s, Manhattan(w[0]));
        Some(Manhattan(w[0]))
      else
        if rest.Some? then AttainedTail(w, s, rest.value); rest else rest
  }

  /** `v` is the Manhattan distance of the point of `w2` on `w1` nearest to
      the origin, or 0 when the two walks share no point. */
  ghost predicate NearestDistance(w1: seq<Point>, w2: seq<Point>, v: nat)
  {
    && ((forall i :: 0 <= i < |w2| ==> w2[i] !in w1) ==> v == 0)
    && ((exists i :: 0 <= i < |w2| && w2[i] in w1) ==>
          Attained(w2, (set p | p in w1), v) && forall i :: 0 <= i < |w2| && w2[i] in w1 ==> v <= Manhattan(w2[i]))
  }

  /** `find_minimum_distance`: the Manhattan distance of the second wire's
      crossing with the first wire nearest to the origin, or 0 when the wires
      never cross. A field that does not parse is an error. */
  method MinimumDistance(first: string, second: string) returns (r: Result<nat, WireError>)
    requires ReachedFields(first) && (ParseWire(first).Ok? ==> ReachedFields(second))
    ensures ParseWire(first).Err? ==> r == Err(ParseWire(first).error)
    ensures ParseWire(first).Ok? && ParseWire(second).Err? ==> r == Err(ParseWire(second).error)
    ensures r.Ok? <==> ParseWire(first).Ok? && ParseWire(second).Ok?
    ensures r.Ok? ==> NearestDistance(Walk(Point(0, 0), ParseWire(first).value), Walk(Point(0, 0), ParseWire(second).value), r.value)
  {
    var segs1 :- ParseWire(first);
    var w1 := Collect(segs1);
    var firstSet := set p | p in w1;
    var segs2 :- ParseWire(second);
    var w2 := Collect(segs2);
    var nearest := NearestIn(firstSet, w2);
    r := Ok(if nearest.Some? then nearest.value else 0);
  }

  /** The step count at which each point is first reached: one more than the
      index of its first occurrence. */
  method FirstSteps(w: seq<Point>) returns (steps: map<Point, nat>)
    ensures forall p :: p in steps <==> p in w
    ensures forall p :: p in steps ==> 1 <= steps[p] <= |w| && w[steps[p] - 1] == p && p !in w[..steps[p] - 1]
    ensures FirstStepsOf(w, steps)
  {
    steps := map[];
    var k := 0;
    while k < |w|
      invariant 0 <= k <= |w|
      invariant forall p :: p in steps <==> p in w[..k]
      invariant forall p :: p in steps ==> 1 <= steps[p] <= k && w[steps[p] - 1] == p && p !in w[..steps[p] - 1]
    {
      assert w[..k + 1] == w[..k] + [w[k]];
      if w[k] !in steps {
        steps := steps[w[k] := k + 1];
      }
      k := k + 1;
    }
    assert w[..k] == w;
  }

  /** Some crossing at index `i` of `w` reaches combined steps `v`. */
  predicate Reached(steps: map<Point, nat>, w: seq<Point>, v: nat)
  {
    exists i :: 0 <= i < |w| && w[i] in steps && 1 + i + steps[w[i]] == v
  }

  lemma ReachedPrefix(steps: map<Point, nat>, w: seq<Point>, n: nat, v: nat)
    requires n <= |w| && Reached(steps, w[..n], v)
    ensures Reached(steps, w, v)
  {
    var i :| 0 <= i < |w[..n]| && w[..n][i] in steps && 1 + i + steps[w[..n][i]] == v;
    assert w[i] == w[..n][i];
  }

  /** `enumerate().filter(in steps).map(1 + index + steps).min()` over `w`. */
  function FewestIn(steps: map<Point, nat>, w: seq<Point>): (r: Option<nat>)
    ensures r.None? <==> forall i :: 0 <= i < |w| ==> w[i] !in steps
    ensures r.Some? ==> Reached(steps, w, r.value)
    ensures r.Some? ==> forall i :: 0 <= i < |w| && w[i] in steps ==> r.value <= 1 + i + steps[w[i]]
    decreases |w|
  {
    if |w| == 0 then None
    else
      var n := |w| - 1;
      var rest := FewestIn(steps, w[..n]);
      assert forall i :: 0 <= i < n ==> w[..n][i] == w[i];
      if w[n] in steps && (rest.None? || 1 + n + steps[w[n]] <= rest.value) then
        assert Reached(steps, w, 1 + n + steps[w[n]]);
        Some(1 + n + steps[w[n]])
      else
        if rest.Some? then ReachedPrefix(steps, w, n, rest.value); rest else rest
  }

  /** Points `i` of `w2` and `j` of `w1` coincide, and together they take `v` steps. */
  predicate CrossingAt(w1: seq<Point>, w2: seq<Point>, i: int, j: int, v: int)
  {
    0 <= i < |w2| && 0 <= j < |w1| && w2[i] == w1[j] && v == i + j + 2
  }

  /** `steps` records the first step count of every point of `w`, and nothing else. */
  ghost predicate FirstStepsOf(w: seq<Point>, steps: map<Point, nat>)
  {
    && (forall p :: p in steps <==> p in w)
    && (forall p :: p in steps ==> 1 <= steps[p] <= |w| && w[steps[p] - 1] == p && p !in w[..steps[p] - 1])
  }

  /** Every point before `n` is in the prefix of length `n`. */
  lemma PrefixMembers(w: seq<Point>, n: nat)
    requires n <= |w|
    ensures forall j :: 0 <= j < n ==> w[j] in w[..n]
  {
    assert forall j :: 0 <= j < n ==> w[..n][j] == w[j];
  }

  /** Over the first steps of `w1`, the fewest combined steps along `w2` is the
      minimum of `i + j + 2` over the pairs of coinciding points `w2[i] == w1[j]`. */
  lemma FewestCrossing(w1: seq<Point>, w2: seq<Point>, steps: map<Point, nat>)
    requires FirstStepsOf(w1, steps)
    ensures FewestIn(steps, w2).None? <==> forall i, j :: 0 <= i < |w2| && 0 <= j < |w1| ==> w2[i] != w1[j]
    ensures FewestIn(steps, w2).Some? ==>
      && (exists i, j :: CrossingAt(w1, w2, i, j, FewestIn(steps, w2).value))
      && forall i, j :: 0 <= i < |w2| && 0 <= j < |w1| && w2[i] == w1[j] ==> FewestIn(steps, w2).value <= i + j + 2
  {
    var fewest := FewestIn(steps, w2);
    if fewest.Some? {
      var i :| 0 <= i < |w2| && w2[i] in steps && 1 + i + steps[w2[i]] == fewest.value;
      assert CrossingAt(w1, w2, i, steps[w2[i]] - 1, fewest.value);
    } else {
      forall i, j | 0 <= i < |w2| && 0 <= j < |w1|
        ensures w2[i] != w1[j]
      {
        assert w1[j] in w1;
      }
    }
    forall i, j | 0 <= i < |w2| && 0 <= j < |w1| && w2[i] == w1[j]
      ensures fewest.Some? && fewest.value <= i + j + 2
    {
      assert w1[j] in w1;
      PrefixMembers(w1, steps[w1[j]] - 1);
    }
  }

  /** `v` is the fewest steps the two walks take together to reach a common
      point, or 0 when they share no point. */
  ghost predicate FewestSteps(w1: seq<Point>, w2: seq<Point>, v: nat)
  {
    && ((forall i, j :: 0 <= i < |w2| && 0 <= j < |w1| ==> w2[i] != w1[j]) ==> v == 0)
    && ((exists i, j :: 0 <= i < |w2| && 0 <= j < |w1| && w2[i] == w1[j]) ==>
          (exists i, j :: CrossingAt(w1, w2, i, j, v)) &&
          forall i, j :: 0 <= i < |w2| && 0 <= j < |w1| && w2[i] == w1[j] ==> v <= i + j + 2)
  }

  /** The search over first-step counts, with 0 for no crossing, gives the
      fewest combined steps. */
  lemma FewestValue(w1: seq<Point>, w2: seq<Point>, steps: map<Point, nat>)
    requires FirstStepsOf(w1, steps)
    ensures var fewest := FewestIn(steps, w2); FewestSteps(w1, w2, if fewest.Some? then fewest.value else 0)
  {
    FewestCrossing(w1, w2, steps);
  }

  /** `find_minimum_combined_steps`: the fewest steps the two wires take
      together to reach a common point, or 0 when they never cross. A field
      that does not parse is an error. */
  method MinimumCombinedSteps(first: string, second: string) returns (r: Result<nat, WireError>)
    requires ReachedFields(first) && (ParseWire(first).Ok? ==> ReachedFields(second))
    ensures ParseWire(first).Err? ==> r == Err(ParseWire(first).error)
    ensures ParseWire(first).Ok? && ParseWire(second).Err? ==> r == Err(ParseWire(second).error)
    ensures r.Ok? <==> ParseWire(first).Ok? && ParseWire(second).Ok?
    ensures r.Ok? ==> FewestSteps(Walk(Point(0, 0), ParseWire(first).value), Walk(Point(0, 0), ParseWire(second).value), r.value)
  {
    var segs1 :- ParseWire(first);
    var w1 := Collect(segs1);
    var steps := FirstSteps(w1);
    var segs2 :- ParseWire(second);
    var w2 := Collect(segs2);
    var fewest := FewestIn(steps, w2);
    FewestValue(w1, w2, steps);
    r := Ok(if fewest.Some? then fewest.value else 0);
  }
}
