/** Day one: sonar sweep.  The input is one depth reading per line; part one
    counts the readings larger than the reading before them, part two counts
    the three-reading window sums larger than the window sum before them. */
module DayOne {
  import opened Results
  import opened Text

  datatype Error =
    | InvalidNumber(line: nat)   // a line that is not an i32
    | Overflow                   // an i32 window sum out of range

  // ---------------------------------------------------------------------------
  // Parsing
  // ---------------------------------------------------------------------------

  /** `parse_input`: every trimmed line read as an i32, in input order. */
  function ParseInput(raw: string): (r: Result<seq<int>, Error>)
    ensures r.Success? ==> forall i :: 0 <= i < |r.value| ==> IsI32(r.value[i])
  {
    ParseLines(Lines(raw))
  }

  /** One line read as an i32 after trimming. */
  function Reading(line: string): Option<int> {
    ParseI32(Trim(line))
  }

  /** The readings of `lines`; the first line that is not an i32 is reported. */
  function ParseLines(lines: seq<string>): (r: Result<seq<int>, Error>)
    ensures r.Success? <==> forall i :: 0 <= i < |lines| ==> Reading(lines[i]).Some?
    ensures r.Success? ==> |r.value| == |lines|
    ensures r.Success? ==> forall i :: 0 <= i < |lines| ==> Reading(lines[i]) == Some(r.value[i])
    ensures r.Failure? ==> r.error.InvalidNumber? && r.error.line < |lines|
    ensures r.Failure? ==> Reading(lines[r.error.line]).None?
                           && forall i :: 0 <= i < r.error.line ==> Reading(lines[i]).Some?
  {
    match ParseEach(lines, Reading)
    case Success(xs) => Success(xs)
    case Failure(bad) => Failure(InvalidNumber(bad))
  }

  /** A reading written in decimal, padded with blanks, reads back as itself. */
  lemma ReadingShown(x: int, pad: string)
    requires IsI32(x) && AllWhitespace(pad)
    ensures Reading(pad + ShowI32(x) + pad) == Some(x)
  {
    var shown := ShowI32(x);
    var digits := Show(if x < 0 then -x else x, 10);
    assert shown[|shown| - 1] == digits[|digits| - 1];
    assert IsDigit(digits[|digits| - 1], 10);
    assert shown[0] == '-' || IsDigit(shown[0], 10);
    TrimPadded(pad, shown, pad);
    ParseShowI32(x);
  }

  /** The decimal rendering of readings, one per line, parses back to them. */
  lemma ParseLinesShown(xs: seq<int>, pad: string)
    requires forall i :: 0 <= i < |xs| ==> IsI32(xs[i])
    requires AllWhitespace(pad)
    ensures ParseLines(seq(|xs|, i requires 0 <= i < |xs| => pad + ShowI32(xs[i]) + pad)) == Success(xs)
  {
    var lines := seq(|xs|, i requires 0 <= i < |xs| => pad + ShowI32(xs[i]) + pad);
    forall i | 0 <= i < |xs|
      ensures Reading(lines[i]) == Some(xs[i])
    {
      ReadingShown(xs[i], pad);
    }
    var r := ParseLines(lines);
    assert r.value == xs;
  }

  // ---------------------------------------------------------------------------
  // Part one
  // ---------------------------------------------------------------------------

  /** Reading i is strictly larger than reading i - 1. */
  predicate IncreaseAt(xs: seq<int>, i: nat)
    requires 1 <= i < |xs|
  {
    xs[i] > xs[i - 1]
  }

  /** The positions i >= 1 whose reading is strictly larger than reading i - 1,
      among the first `n` readings. */
  function IncreasesBelow(xs: seq<int>, n: nat): set<nat>
    requires n <= |xs|
  {
    set i: nat | 1 <= i < n && IncreaseAt(xs, i)
  }

  function Increases(xs: seq<int>): set<nat> {
    IncreasesBelow(xs, |xs|)
  }

  /** One more reading adds its own position exactly when it is an increase. */
  lemma IncreasesBelowStep(xs: seq<int>, n: nat)
    requires n < |xs|
    ensures IncreasesBelow(xs, n + 1)
            == IncreasesBelow(xs, n) + (if 1 <= n && xs[n] > xs[n - 1] then {n} else {})
    ensures n !in IncreasesBelow(xs, n)
  {
  }

  /** At most every reading but the first is an increase. */
  lemma {:induction false} IncreasesBelowBound(xs: seq<int>, n: nat)
    requires n <= |xs|
    ensures |IncreasesBelow(xs, n)| <= if n == 0 then 0 else n - 1
  {
    if n > 0 {
      IncreasesBelowBound(xs, n - 1);
      IncreasesBelowStep(xs, n - 1);
    } else {
      assert IncreasesBelow(xs, n) == {};
    }
  }

  /** `part_one`: the number of readings larger than the reading before them. */
  method PartOne(numbers: seq<int>) returns (count: nat)
    ensures count == |Increases(numbers)|
  {
    count := 0;
    var last: Option<int> := None;
    for k := 0 to |numbers|
      invariant last == if k == 0 then None else Some(numbers[k - 1])
      invariant count == |IncreasesBelow(numbers, k)|
    {
      IncreasesBelowStep(numbers, k);
      var number := numbers[k];
      if last.Some? && number > last.value {
        count := count + 1;
      }
      last := Some(number);
    }
  }

  /** Part one's answer lies between 0 and len - 1; a list of at most one reading gives 0. */
  lemma PartOneBound(xs: seq<int>)
    ensures |xs| <= 1 ==> |Increases(xs)| == 0
    ensures |xs| >= 1 ==> |Increases(xs)| <= |xs| - 1
  {
    IncreasesBelowBound(xs, |xs|);
  }

  /** Equal neighbours are never counted, nor is the first reading. */
  lemma IncreasesExact(xs: seq<int>, i: nat)
    ensures i in Increases(xs) <==> 1 <= i < |xs| && xs[i] > xs[i - 1]
  {
  }

  /** The worked example: [1, 2, 5, 5, 2] has two increases. */
  lemma PartOneExample()
    ensures |Increases([1, 2, 5, 5, 2])| == 2
  {
    assert Increases([1, 2, 5, 5, 2]) == {1, 2};
  }

  // ---------------------------------------------------------------------------
  // Part two
  // ---------------------------------------------------------------------------

  /** The sums of the consecutive windows of three readings (`slice::windows(3)`). */
  function WindowSums(xs: seq<int>): (w: seq<int>)
    ensures |w| == if |xs| < 3 then 0 else |xs| - 2
  {
    seq(if |xs| < 3 then 0 else |xs| - 2, k requires 0 <= k && k + 2 < |xs| => xs[k] + xs[k + 1] + xs[k + 2])
  }

  /** Summing window k stays within i32, the partial sum included. */
  predicate WindowFits(xs: seq<int>, k: nat)
    requires k + 2 < |xs|
  {
    IsI32(xs[k] + xs[k + 1]) && IsI32(xs[k] + xs[k + 1] + xs[k + 2])
  }

  /** The first `n` windows are summed without overflow. */
  predicate WindowsFitBelow(xs: seq<int>, n: nat)
    requires n <= |WindowSums(xs)|
  {
    forall k: nat :: k < n ==> WindowFits(xs, k)
  }

  predicate WindowsFit(xs: seq<int>) {
    WindowsFitBelow(xs, |WindowSums(xs)|)
  }

  /** `part_two`: the number of window sums larger than the window sum before
      them; an i32 overflow while summing a window is an error. */
  method PartTwo(numbers: seq<int>) returns (r: Result<nat, Error>)
    ensures r.Failure? <==> !WindowsFit(numbers)
    ensures r.Failure? ==> r.error == Overflow
    ensures r.Success? ==> r.value == |Increases(WindowSums(numbers))|
  {
    ghost var sums := WindowSums(numbers);
    var count := 0;
    var last: Option<int> := None;
    var windows := if |numbers| < 3 then 0 else |numbers| - 2;
    for k := 0 to windows
      invariant WindowsFitBelow(numbers, k)
      invariant last == if k == 0 then None else Some(sums[k - 1])
      invariant count == |IncreasesBelow(sums, k)|
    {
      var partial := numbers[k] + numbers[k + 1];
      if !IsI32(partial) {
        assert !WindowFits(numbers, k);
        return Failure(Overflow);
      }
      var sum := partial + numbers[k + 2];
      if !IsI32(sum) {
        assert !WindowFits(numbers, k);
        return Failure(Overflow);
      }
      assert sums[k] == sum;
      IncreasesBelowStep(sums, k);
      if last.Some? && sum > last.value {
        count := count + 1;
      }
      last := Some(sum);
    }
    return Success(count);
  }

  /** A window sum beats the one before exactly when the reading entering the
      window beats the reading leaving it. */
  lemma WindowIncreases(xs: seq<int>, j: nat)
    ensures j in Increases(WindowSums(xs)) <==> 1 <= j && j + 2 < |xs| && xs[j + 2] > xs[j - 1]
  {
  }

  /** Fewer than four readings give at most one window, hence no increase. */
  lemma PartTwoShort(xs: seq<int>)
    requires |xs| < 4
    ensures |Increases(WindowSums(xs))| == 0
  {
    PartOneBound(WindowSums(xs));
  }

  /** The worked example of nine readings has four increasing window sums. */
  lemma PartTwoExample()
    ensures WindowsFit([85, 120, 194, 21, 15, 250, 354, 908, 342])
    ensures |Increases(WindowSums([85, 120, 194, 21, 15, 250, 354, 908, 342]))| == 4
  {
    var xs := [85, 120, 194, 21, 15, 250, 354, 908, 342];
    assert WindowSums(xs) == [399, 335, 230, 286, 619, 1512, 1604];
    assert Increases(WindowSums(xs)) == {3, 4, 5, 6};
  }
}
