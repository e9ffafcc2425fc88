/** Orbit counting: each body orbits one other body, the chains end at the
    centre of mass "COM", and a body's count is the number of orbits, direct
    and indirect, between it and "COM". Counts are memoised in a map. */
module Orbits {

  /** What each body orbits: the map read from lines `A)B` as `B -> A`. */
  type OrbitMap = map<string, string>

  const Com: string := "COM"

  /** `n` is the number of steps from `body` along the orbit map to "COM". */
  predicate IsDepth(orbits: OrbitMap, body: string, n: nat)
    decreases n
  {
    && body in orbits
    && n >= 1
    && (orbits[body] == Com ==> n == 1)
    && (orbits[body] != Com ==> n >= 2 && IsDepth(orbits, orbits[body], n - 1))
  }

  /** Every body's chain reaches "COM": without it the walk panics on a
      missing key or never ends. */
  ghost predicate Grounded(orbits: OrbitMap)
  {
    forall body :: body in orbits ==> exists n: nat :: IsDepth(orbits, body, n)
  }

  /** A body has at most one depth. */
  lemma {:induction false} DepthUnique(orbits: OrbitMap, body: string, n: nat, m: nat)
    requires IsDepth(orbits, body, n) && IsDepth(orbits, body, m)
    ensures n == m
    decreases n
  {
    if orbits[body] != Com {
      DepthUnique(orbits, orbits[body], n - 1, m - 1);
    }
  }

  /** The sum of the counts of `keys`. */
  ghost function SumCounts(counts: map<string, nat>, keys: set<string>): nat
    requires keys <= counts.Keys
    decreases keys
  {
    if keys == {} then 0
    else
      var k :| k in keys;
      counts[k] + SumCounts(counts, keys - {k})
  }

  /** The sum does not depend on which key is taken first. */
  lemma {:induction false} SumCountsRemove(counts: map<string, nat>, keys: set<string>, k: string)
    requires keys <= counts.Keys && k in keys
    ensures SumCounts(counts, keys) == counts[k] + SumCounts(counts, keys - {k})
    decreases keys
  {
    var j :| j in keys && SumCounts(counts, keys) == counts[j] + SumCounts(counts, keys - {j});
    if j != k {
      SumCountsRemove(counts, keys - {j}, k);
      SumCountsRemove(counts, keys - {k}, j);
      assert keys - {j} - {k} == keys - {k} - {j};
    }
  }

  /** The loop of `main` (the map read from input is a parameter): for each
      body not yet counted, walk up its chain pushing bodies until reaching
      "COM" or a counted body, then count the walked bodies back down; the
      result is the sum of all counts. HashMap iteration order is an
      arbitrary choice here. */
  method CountOrbits(orbits: OrbitMap) returns (counts: map<string, nat>, total: nat)
    requires Grounded(orbits)
    ensures counts.Keys == orbits.Keys
    ensures forall body :: body in counts ==> IsDepth(orbits, body, counts[body])
    ensures total == SumCounts(counts, counts.Keys)
  {
    counts := map[];
    var todo := orbits.Keys;
    while todo != {}
      invariant todo <= orbits.Keys
      invariant orbits.Keys - todo <= counts.Keys <= orbits.Keys
      invariant forall body :: body in counts ==> IsDepth(orbits, body, counts[body])
      decreases todo
    {
      var key :| key in todo;
      todo := todo - {key};
      if key in counts {
        continue;
      }
      var stack: seq<string> := [];
      var current := key;
      ghost var d: nat :| IsDepth(orbits, current, d);
      var steps: nat;
      while true
        invariant current in orbits && IsDepth(orbits, current, d)
        invariant forall i :: 0 <= i < |stack| ==> IsDepth(orbits, stack[i], d + |stack| - i)
        invariant key == if |stack| == 0 then current else stack[0]
        decreases d
      {
        var value := orbits[current];
        if value == Com {
          steps := 1;
          break;
        } else if value in counts {
          steps := counts[value] + 1;
          break;
        }
        stack := stack + [current];
        current := value;
        d := d - 1;
      }
      DepthUnique(orbits, current, steps, d);
      counts := counts[current := steps];
      var i := |stack|;
      while i > 0
        invariant 0 <= i <= |stack|
        invariant steps == d + |stack| - i
        invariant counts.Keys <= orbits.Keys
        invariant orbits.Keys - todo - {key} <= counts.Keys
        invariant i == 0 ==> key in counts
        invariant forall body :: body in counts ==> IsDepth(orbits, body, counts[body])
      {
        i := i - 1;
        steps := steps + 1;
        counts := counts[stack[i] := steps];
      }
    }
    total := 0;
    var rest := counts.Keys;
    while rest != {}
      invariant rest <= counts.Keys
      invariant total + SumCounts(counts, rest) == SumCounts(counts, counts.Keys)
      decreases rest
    {
      var k :| k in rest;
      SumCountsRemove(counts, rest, k);
      total := total + counts[k];
      rest := rest - {k};
    }
  }

  /** A line of three bodies: D orbits C, C orbits B, B orbits "COM". */
  function LineOfThree(): OrbitMap
  {
    map["B" := Com, "C" := "B", "D" := "C"]
  }

  /** Every body of the line reaches "COM", so it may be counted. */
  lemma LineOfThreeGrounded()
    ensures Grounded(LineOfThree())
  {
    assert IsDepth(LineOfThree(), "B", 1);
    assert IsDepth(LineOfThree(), "C", 2);
    assert IsDepth(LineOfThree(), "D", 3);
  }

  /** Counts that meet the contract of the count for the line are 1, 2 and 3,
      so the total is 6. */
  lemma LineOfThreeTotal(counts: map<string, nat>)
    requires counts.Keys == LineOfThree().Keys
    requires forall body :: body in counts ==> IsDepth(LineOfThree(), body, counts[body])
    ensures SumCounts(counts, counts.Keys) == 6
  {
    LineOfThreeGrounded();
    assert IsDepth(LineOfThree(), "B", 1) && IsDepth(LineOfThree(), "C", 2) && IsDepth(LineOfThree(), "D", 3);
    DepthUnique(LineOfThree(), "B", counts["B"], 1);
    DepthUnique(LineOfThree(), "C", counts["C"], 2);
    DepthUnique(LineOfThree(), "D", counts["D"], 3);
    var keys := counts.Keys;
    SumCountsRemove(counts, keys, "B");
    SumCountsRemove(counts, keys - {"B"}, "C");
    SumCountsRemove(counts, keys - {"B"} - {"C"}, "D");
    assert keys - {"B"} - {"C"} - {"D"} == {};
  }
}
