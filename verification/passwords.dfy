/** Password rules: a value is read as its six low-order decimal digits, most
    significant first; the digits must never decrease, and some digit must
    repeat (first rule) or occur exactly twice (second rule). */
module Passwords {
  import RustInt

  /** `(value / 10_u32.pow(i)) % 10`: decimal digit `i`, counted from the right. */
  function DigitAt(value: nat, i: nat): (d: nat)
    ensures d <= 9
  {
    (value / RustInt.Pow10(i)) % 10
  }

  /** The six digits the validators look at, in the order they visit them. */
  function Digits(value: nat): (ds: seq<nat>)
    ensures |ds| == 6
  {
    [DigitAt(value, 5), DigitAt(value, 4), DigitAt(value, 3), DigitAt(value, 2), DigitAt(value, 1), DigitAt(value, 0)]
  }

  /** Entry `k` of the digits is decimal digit `5 - k`. */
  lemma DigitsAt(value: nat, k: nat)
    requires k < 6
    ensures Digits(value)[k] == DigitAt(value, 5 - k)
  {
  }

  predicate NonDecreasing(s: seq<nat>)
  {
    forall i :: 0 < i < |s| ==> s[i - 1] <= s[i]
  }

  /** The distinct values of `s`. */
  function Elems(s: seq<nat>): set<nat>
  {
    set x | x in s
  }

  /** First rule: never decreasing, and fewer distinct digits than digits. */
  predicate ValidPuzzle1(value: nat)
  {
    NonDecreasing(Digits(value)) && |Elems(Digits(value))| < 6
  }

  /** Second rule: never decreasing, and some digit occurs exactly twice. */
  predicate ValidPuzzle2(value: nat)
  {
    NonDecreasing(Digits(value)) && exists d :: 0 <= d < 10 && multiset(Digits(value))[d] == 2
  }

  /** `is_valid_puzzle_1`: a digit smaller than the previous one rejects at
      once; the digits seen are collected in a set. */
  method IsValidPuzzle1(value: nat) returns (valid: bool)
    requires value <= RustInt.U32Max
    ensures valid <==> ValidPuzzle1(value)
  {
    var ds := Digits(value);
    var seen: set<nat> := {};
    var last := 0;
    var k := 0;
    while k < 6
      invariant 0 <= k <= 6
      invariant seen == Elems(ds[..k])
      invariant NonDecreasing(ds[..k])
      invariant last == if k == 0 then 0 else ds[k - 1]
    {
      var digit := DigitAt(value, 5 - k);
      DigitsAt(value, k);
      if digit < last {
        assert ds[k - 1] > ds[k];
        return false;
      }
      assert ds[..k + 1] == ds[..k] + [digit];
      last := digit;
      seen := seen + {digit};
      k := k + 1;
    }
    assert ds[..6] == ds;
    valid := |seen| < 6;
  }

  /** `is_valid_puzzle_2`: as the first rule, but counting each digit's
      repetitions and looking for a count of exactly two. */
  method IsValidPuzzle2(value: nat) returns (valid: bool)
    requires value <= RustInt.U32Max
    ensures valid <==> ValidPuzzle2(value)
  {
    ghost var ds := Digits(value);
    var repetitions: seq<nat> := [0, 0, 0, 0, 0, 0, 0, 0, 0, 0];
    var last := 0;
    var k := 0;
    while k < 6
      invariant 0 <= k <= 6
      invariant repetitions == Tallies(ds[..k])
      invariant NonDecreasing(ds[..k])
      invariant last == if k == 0 then 0 else ds[k - 1]
    {
      var digit := DigitAt(value, 5 - k);
      DigitsAt(value, k);
      if digit < last {
        Descent(ds, k);
        return false;
      }
      Extend(ds, k);
      last := digit;
      repetitions := repetitions[last := repetitions[last] + 1];
      k := k + 1;
    }
    assert ds[..6] == ds;
    valid := 2 in repetitions;
    TalliesTwo(ds);
  }

  /** How often each digit occurs in `s`, tallied front to back. */
  function Tallies(s: seq<nat>): (counts: seq<nat>)
    ensures |counts| == 10
  {
    if |s| == 0 then [0, 0, 0, 0, 0, 0, 0, 0, 0, 0]
    else
      var counts := Tallies(s[..|s| - 1]);
      var x := s[|s| - 1];
      if x < 10 then counts[x := counts[x] + 1] else counts
  }

  /** The tally of digits agrees with their multiset. */
  lemma {:induction false} TalliesCount(s: seq<nat>)
    requires forall i :: 0 <= i < |s| ==> s[i] < 10
    ensures forall d :: 0 <= d < 10 ==> Tallies(s)[d] == multiset(s)[d]
  {
    if |s| > 0 {
      var t := s[..|s| - 1];
      assert s == t + [s[|s| - 1]];
      TalliesCount(t);
      assert multiset(s) == multiset(t) + multiset{s[|s| - 1]};
    }
  }

  /** A digit below its predecessor breaks the never-decreasing rule. */
  lemma Descent(ds: seq<nat>, k: nat)
    requires 0 < k < |ds| && ds[k - 1] > ds[k]
    ensures !NonDecreasing(ds)
  {
  }

  /** Taking one more digit that is not below the last keeps the prefix
      never decreasing and the tally in step. */
  lemma Extend(ds: seq<nat>, k: nat)
    requires k < |ds| && ds[k] < 10
    requires NonDecreasing(ds[..k])
    requires k == 0 || ds[k - 1] <= ds[k]
    ensures Tallies(ds[..k + 1]) == Tallies(ds[..k])[ds[k] := Tallies(ds[..k])[ds[k]] + 1]
    ensures NonDecreasing(ds[..k + 1])
  {
    assert ds[..k + 1][..k] == ds[..k];
  }

  /** The tally of six digits holds a two exactly when some digit occurs twice. */
  lemma TalliesTwo(ds: seq<nat>)
    requires forall i :: 0 <= i < |ds| ==> ds[i] < 10
    ensures 2 in Tallies(ds) <==> exists d :: 0 <= d < 10 && multiset(ds)[d] == 2
  {
    TalliesCount(ds);
    if 2 in Tallies(ds) {
      var d :| 0 <= d < 10 && Tallies(ds)[d] == 2;
    }
  }

  /** A value that occurs at least twice leaves fewer distinct values than entries. */
  lemma {:induction false} RepeatShrinks(s: seq<nat>, d: nat)
    requires multiset(s)[d] >= 2
    ensures |Elems(s)| < |s|
  {
    var t: seq<nat> := s[1..];
    assert s == [s[0]] + t;
    assert Elems(s) == {s[0]} + Elems(t);
    if s[0] == d {
      assert multiset(t)[d] >= 1;
      assert d in t;
      assert Elems(s) == Elems(t);
      ElemsBound(t);
    } else {
      assert multiset(t)[d] >= 2;
      RepeatShrinks(t, d);
    }
  }

  /** There are never more distinct values than entries. */
  lemma {:induction false} ElemsBound(s: seq<nat>)
    ensures |Elems(s)| <= |s|
  {
    if |s| > 0 {
      var t: seq<nat> := s[1..];
      assert s == [s[0]] + t;
      assert Elems(s) == {s[0]} + Elems(t);
      ElemsBound(t);
    }
  }

  /** A strictly increasing sequence has as many distinct values as entries. */
  lemma {:induction false} IncreasingDistinct(s: seq<nat>)
    requires forall i :: 0 < i < |s| ==> s[i - 1] < s[i]
    ensures |Elems(s)| == |s|
  {
    if |s| > 0 {
      var t: seq<nat> := s[1..];
      assert s == [s[0]] + t;
      assert Elems(s) == {s[0]} + Elems(t);
      Increasing(s);
      assert s[0] !in t;
      IncreasingDistinct(t);
    }
  }

  /** A strictly increasing sequence stays above its first entry. */
  lemma {:induction false} Increasing(s: seq<nat>)
    requires forall i :: 0 < i < |s| ==> s[i - 1] < s[i]
    ensures forall j :: 0 < j < |s| ==> s[0] < s[j]
  {
    if |s| > 2 {
      Increasing(s[1..]);
      assert forall j :: 1 < j < |s| ==> s[1..][j - 1] == s[j];
    }
  }

  /** In non-decreasing digits, fewer distinct digits than digits means two
      adjacent digits are the same, which is how the first rule is usually worded. */
  lemma AdjacentRepeat(s: seq<nat>)
    requires NonDecreasing(s)
    ensures |Elems(s)| < |s| <==> exists i :: 0 < i < |s| && s[i - 1] == s[i]
  {
    if exists i :: 0 < i < |s| && s[i - 1] == s[i] {
      var i :| 0 < i < |s| && s[i - 1] == s[i];
      assert s == s[..i - 1] + [s[i - 1], s[i]] + s[i + 1..];
      assert multiset(s)[s[i]] >= 2;
      RepeatShrinks(s, s[i]);
    } else {
      IncreasingDistinct(s);
    }
  }

  /** The second rule is stricter than the first. */
  lemma Puzzle2ImpliesPuzzle1(value: nat)
    requires ValidPuzzle2(value)
    ensures ValidPuzzle1(value)
  {
    var d :| 0 <= d < 10 && multiset(Digits(value))[d] == 2;
    RepeatShrinks(Digits(value), d);
  }

  /** The powers of ten the validators divide by. */
  lemma Powers()
    ensures RustInt.Pow10(0) == 1 && RustInt.Pow10(1) == 10 && RustInt.Pow10(2) == 100
    ensures RustInt.Pow10(3) == 1000 && RustInt.Pow10(4) == 10000 && RustInt.Pow10(5) == 100000
  {
  }

  /** The six digits of the example values. */
  lemma ExampleDigits()
    ensures Digits(111111) == [1, 1, 1, 1, 1, 1]
    ensures Digits(123456) == [1, 2, 3, 4, 5, 6]
    ensures Digits(122345) == [1, 2, 2, 3, 4, 5]
  {
    Powers();
  }

  lemma MoreExampleDigits()
    ensures Digits(122245) == [1, 2, 2, 2, 4, 5]
    ensures Digits(123444) == [1, 2, 3, 4, 4, 4]
    ensures Digits(111122) == [1, 1, 1, 1, 2, 2]
  {
    Powers();
  }

  /** The first rule accepts 111111 and 122345 and rejects 123456. */
  lemma Puzzle1Examples()
    ensures ValidPuzzle1(111111) && !ValidPuzzle1(123456) && ValidPuzzle1(122345)
  {
    ExampleDigits();
    AdjacentRepeat([1, 1, 1, 1, 1, 1]);
    AdjacentRepeat([1, 2, 3, 4, 5, 6]);
    AdjacentRepeat([1, 2, 2, 3, 4, 5]);
    assert [1, 1, 1, 1, 1, 1][0] == [1, 1, 1, 1, 1, 1][1];
    assert [1, 2, 2, 3, 4, 5][1] == [1, 2, 2, 3, 4, 5][2];
  }

  /** Six ones: no digit occurs exactly twice. */
  lemma Puzzle2RejectsOnes()
    ensures !ValidPuzzle2(111111)
  {
    ExampleDigits();
    assert multiset(Digits(111111)) == multiset{1, 1, 1, 1, 1, 1};
  }

  /** All digits distinct: no digit occurs exactly twice. */
  lemma Puzzle2RejectsDistinct()
    ensures !ValidPuzzle2(123456)
  {
    ExampleDigits();
    assert multiset(Digits(123456)) == multiset{1, 2, 3, 4, 5, 6};
  }

  /** A pair of twos: accepted. */
  lemma Puzzle2AcceptsPair()
    ensures ValidPuzzle2(122345)
  {
    ExampleDigits();
    assert multiset(Digits(122345))[2] == 2;
  }

  /** Only a run of three: rejected. */
  lemma Puzzle2RejectsTriple()
    ensures !ValidPuzzle2(122245) && !ValidPuzzle2(123444)
  {
    MoreExampleDigits();
    assert multiset(Digits(122245)) == multiset{1, 2, 2, 2, 4, 5};
    assert multiset(Digits(123444)) == multiset{1, 2, 3, 4, 4, 4};
  }

  /** A run of four ones followed by a pair of twos: accepted. */
  lemma Puzzle2AcceptsTrailingPair()
    ensures ValidPuzzle2(111122)
  {
    MoreExampleDigits();
    assert multiset(Digits(111122))[2] == 2;
  }
}
