/** Day three: binary diagnostic.  The report is a list of equally long bit
    strings.  Part one builds the gamma rate from the most common bit of every
    column and the epsilon rate from the least common one; part two narrows the
    report down, bit by bit, to the oxygen generator rating and the CO2
    scrubber rating. */
module DayThree {
  import opened Results
  import opened Text

  const U16_MAX: nat := 0xFFFF
  const U64_MAX: nat := 0xFFFF_FFFF_FFFF_FFFF

  datatype Error =
    | EmptyReport    // the report has no first line to take the width from
    | BadCharacter   // a line is too short, or holds something other than '0' or '1'
    | BadNumber      // `from_str_radix` refuses a bit string (empty, not binary, too large)
    | NoLineLeft     // the bit criteria filtered every line away
    | Overflow       // the product of the two ratings does not fit in a u64

  predicate IsBit(c: char) {
    c == '0' || c == '1'
  }

  // ---------------------------------------------------------------------------
  // Parsing
  // ---------------------------------------------------------------------------

  /** `parse_input`: the lines of the text, each trimmed. */
  function ParseInput(raw: string): (r: seq<string>)
    ensures |r| == |Lines(raw)|
    ensures forall i :: 0 <= i < |r| ==> '\n' !in r[i] && Trimmed(r[i])
  {
    TrimLinesAvoid(Lines(raw), '\n');
    TrimLines(Lines(raw))
  }

  /** Neither end of `s` is whitespace. */
  predicate Trimmed(s: string) {
    s == [] || (!IsWhitespace(s[0]) && !IsWhitespace(s[|s| - 1]))
  }

  /** Every line with its surrounding whitespace removed. */
  function TrimLines(lines: seq<string>): (r: seq<string>)
    ensures |r| == |lines|
    ensures forall i :: 0 <= i < |r| ==> |r[i]| <= |lines[i]| && Trimmed(r[i])
  {
    seq(|lines|, i requires 0 <= i < |lines| => Trim(lines[i]))
  }

  /** A character no line holds is in no trimmed line either. */
  lemma TrimLinesAvoid(lines: seq<string>, c: char)
    requires forall i :: 0 <= i < |lines| ==> c !in lines[i]
    ensures forall i :: 0 <= i < |lines| ==> c !in TrimLines(lines)[i]
  {
    forall i | 0 <= i < |lines|
      ensures c !in TrimLines(lines)[i]
    {
      TrimAvoids(lines[i], c);
    }
  }

  /** Bit strings indented and followed by blanks are read back unchanged. */
  lemma TrimLinesPadded(report: seq<string>, pad: string)
    requires forall i :: 0 <= i < |report| ==> forall j :: 0 <= j < |report[i]| ==> IsBit(report[i][j])
    requires AllWhitespace(pad)
    ensures TrimLines(seq(|report|, i requires 0 <= i < |report| => pad + report[i] + pad)) == report
  {
    var lines := seq(|report|, i requires 0 <= i < |report| => pad + report[i] + pad);
    forall i | 0 <= i < |report|
      ensures Trim(lines[i]) == report[i]
    {
      var s := report[i];
      if s != [] {
        assert IsBit(s[0]) && IsBit(s[|s| - 1]);
      }
      TrimPadded(pad, s, pad);
    }
  }

  // ---------------------------------------------------------------------------
  // Counting bits
  // ---------------------------------------------------------------------------

  /** Whether line `s` has the character `c` at position `pos`. */
  predicate HasAt(s: string, pos: nat, c: char) {
    pos < |s| && s[pos] == c
  }

  /** The number of lines with character `c` at position `pos`. */
  function CountAt(lines: seq<string>, pos: nat, c: char): (n: nat)
    ensures n <= |lines|
  {
    if lines == [] then 0
    else CountAt(lines[..|lines| - 1], pos, c) + (if HasAt(lines[|lines| - 1], pos, c) then 1 else 0)
  }

  /** Counting one more line adds one exactly when that line matches. */
  lemma CountAtStep(lines: seq<string>, k: nat, pos: nat, c: char)
    requires k < |lines|
    ensures CountAt(lines[..k + 1], pos, c) == CountAt(lines[..k], pos, c) + (if HasAt(lines[k], pos, c) then 1 else 0)
  {
    assert lines[..k + 1][..k] == lines[..k];
  }

  /** The first `n` characters of `s` exist and are bits. */
  predicate BitsBelow(s: string, n: nat) {
    n <= |s| && forall j :: 0 <= j < n ==> IsBit(s[j])
  }

  /** Every line has a bit in each of the first `n` positions. */
  predicate AllBitsBelow(lines: seq<string>, n: nat) {
    forall i :: 0 <= i < |lines| ==> BitsBelow(lines[i], n)
  }

  /** Where every line has a bit at `pos`, the ones and the zeros account for all lines. */
  lemma {:induction false} CountAtBits(lines: seq<string>, pos: nat)
    requires forall i :: 0 <= i < |lines| ==> pos < |lines[i]| && IsBit(lines[i][pos])
    ensures CountAt(lines, pos, '0') + CountAt(lines, pos, '1') == |lines|
  {
    if lines != [] {
      CountAtBits(lines[..|lines| - 1], pos);
    }
  }

  // ---------------------------------------------------------------------------
  // Part one
  // ---------------------------------------------------------------------------

  /** The gamma rate of the first `n` columns: bit i is 1 exactly when column i
      holds strictly more ones than zeros. */
  function Gamma(report: seq<string>, n: nat): (g: string)
    ensures |g| == n && AllDigits(g, 2)
  {
    seq(n, i requires 0 <= i < n => if CountAt(report, i, '1') > CountAt(report, i, '0') then '1' else '0')
  }

  /** The epsilon rate: bit i is 1 exactly when column i holds strictly fewer
      ones than zeros. */
  function Epsilon(report: seq<string>, n: nat): (e: string)
    ensures |e| == n && AllDigits(e, 2)
  {
    seq(n, i requires 0 <= i < n => if CountAt(report, i, '1') < CountAt(report, i, '0') then '1' else '0')
  }

  /** `u16::from_str_radix(s, 2)`, or the error the caller's `expect` turns it into. */
  function ParseBinary(s: string, max: nat): (r: Result<nat, Error>)
    ensures r.Success? ==> r.value <= max
    ensures r.Failure? ==> r.error == BadNumber
  {
    match ParseUnsigned(s, 2, max)
    case Some(v) => Success(v)
    case None => Failure(BadNumber)
  }

  /** The power consumption: gamma times epsilon, the width taken from the
      first line. */
  function PowerConsumption(report: seq<string>): (r: Result<nat, Error>)
    ensures r.Success? ==> r.value <= U16_MAX * U16_MAX
  {
    if report == [] then Failure(EmptyReport)
    else
      var n := |report[0]|;
      if !AllBitsBelow(report, n) then Failure(BadCharacter)
      else
        RatesProduct(ParseBinary(Gamma(report, n), U16_MAX), ParseBinary(Epsilon(report, n), U16_MAX))
  }

  /** The product of two parsed 16-bit rates, or the first parse error. */
  function RatesProduct(gamma: Result<nat, Error>, epsilon: Result<nat, Error>): (r: Result<nat, Error>)
    requires gamma.Success? ==> gamma.value <= U16_MAX
    requires epsilon.Success? ==> epsilon.value <= U16_MAX
    ensures r.Success? <==> gamma.Success? && epsilon.Success?
    ensures r.Success? ==> r.value <= U16_MAX * U16_MAX
    ensures r.Success? ==> r.value == gamma.value * epsilon.value
  {
    if gamma.Failure? then Failure(gamma.error)
    else if epsilon.Failure? then Failure(epsilon.error)
    else
      MulMono(gamma.value, epsilon.value, U16_MAX);
      Success(gamma.value * epsilon.value)
  }

  lemma MulMono(a: nat, b: nat, m: nat)
    requires a <= m && b <= m
    ensures a * b <= m * m
  {
    assert a * b <= a * m;
    assert a * m <= m * m;
  }

  /** The first loop of `part_one`: the number of ones and of zeros in each of
      the first `n` columns; a line that is too short or holds another
      character than a bit is an error. */
  method CountColumns(input: seq<string>, n: nat) returns (r: Result<(seq<nat>, seq<nat>), Error>)
    ensures r.Success? <==> AllBitsBelow(input, n)
    ensures r.Failure? ==> r.error == BadCharacter
    ensures r.Success? ==> |r.value.0| == n && |r.value.1| == n
    ensures r.Success? ==> forall i :: 0 <= i < n ==> r.value.0[i] == CountAt(input, i, '1')
    ensures r.Success? ==> forall i :: 0 <= i < n ==> r.value.1[i] == CountAt(input, i, '0')
  {
    var ones: seq<nat> := seq(n, _ => 0);
    var zeros: seq<nat> := seq(n, _ => 0);
    for k := 0 to |input|
      invariant |ones| == n && |zeros| == n
      invariant AllBitsBelow(input[..k], n)
      invariant forall i :: 0 <= i < n ==> ones[i] == CountAt(input[..k], i, '1')
      invariant forall i :: 0 <= i < n ==> zeros[i] == CountAt(input[..k], i, '0')
    {
      var s := input[k];
      for i := 0 to n
        invariant |ones| == n && |zeros| == n
        invariant BitsBelow(s, i)
        invariant forall j :: 0 <= j < i ==> ones[j] == CountAt(input[..k + 1], j, '1')
        invariant forall j :: 0 <= j < i ==> zeros[j] == CountAt(input[..k + 1], j, '0')
        invariant forall j :: i <= j < n ==> ones[j] == CountAt(input[..k], j, '1')
        invariant forall j :: i <= j < n ==> zeros[j] == CountAt(input[..k], j, '0')
      {
        CountAtStep(input, k, i, '0');
        CountAtStep(input, k, i, '1');
        if i >= |s| {
          assert !BitsBelow(input[k], n);
          return Failure(BadCharacter);
        }
        var bit := s[i];
        if bit == '0' {
          zeros := zeros[i := zeros[i] + 1];
        } else if bit == '1' {
          ones := ones[i := ones[i] + 1];
        } else {
          assert !BitsBelow(input[k], n);
          return Failure(BadCharacter);
        }
      }
      assert AllBitsBelow(input[..k + 1], n) by {
        assert input[..k + 1] == input[..k] + [s];
      }
    }
    assert input[..|input|] == input;
    return Success((ones, zeros));
  }

  /** The second and third loops of `part_one`: gamma and epsilon start as all
      zeros, and a column's bit is overwritten with 1 in gamma when it has more
      ones than zeros, in epsilon when it has fewer. */
  method BuildRates(ones: seq<nat>, zeros: seq<nat>) returns (gamma: string, epsilon: string)
    requires |ones| == |zeros|
    ensures |gamma| == |ones| && |epsilon| == |ones|
    ensures forall i :: 0 <= i < |ones| ==> gamma[i] == (if ones[i] > zeros[i] then '1' else '0')
    ensures forall i :: 0 <= i < |ones| ==> epsilon[i] == (if ones[i] < zeros[i] then '1' else '0')
  {
    var n := |ones|;
    gamma := "";
    epsilon := "";
    for k := 0 to n
      invariant gamma == seq(k, _ => '0') && epsilon == seq(k, _ => '0')
    {
      gamma := gamma + "0";
      epsilon := epsilon + "0";
    }
    for i := 0 to n
      invariant |gamma| == n && |epsilon| == n
      invariant forall j :: 0 <= j < i ==> gamma[j] == (if ones[j] > zeros[j] then '1' else '0')
      invariant forall j :: 0 <= j < i ==> epsilon[j] == (if ones[j] < zeros[j] then '1' else '0')
      invariant forall j :: i <= j < n ==> gamma[j] == '0' && epsilon[j] == '0'
    {
      var numOnes := ones[i];
      var numZeros := zeros[i];
      if numOnes > numZeros {
        gamma := gamma[..i] + "1" + gamma[i + 1..];
      }
      if numOnes < numZeros {
        epsilon := epsilon[..i] + "1" + epsilon[i + 1..];
      }
    }
  }

  /** `part_one`: the power consumption, computed as the source does. */
  method PartOne(input: seq<string>) returns (r: Result<nat, Error>)
    ensures r == PowerConsumption(input)
  {
    if input == [] {
      return Failure(EmptyReport);
    }
    var n := |input[0]|;
    var counts :- CountColumns(input, n);
    var gamma, epsilon := BuildRates(counts.0, counts.1);
    assert gamma == Gamma(input, n) && epsilon == Epsilon(input, n);
    var gammaNum :- ParseBinary(gamma, U16_MAX);
    var epsilonNum :- ParseBinary(epsilon, U16_MAX);
    return Success(gammaNum * epsilonNum);
  }

  /** 2 to the power `n`. */
  function Pow2(n: nat): (p: nat)
    ensures p >= 1
  {
    if n == 0 then 1 else 2 * Pow2(n - 1)
  }

  /** Two bit strings that hold opposite bits in every position add up to the
      all-ones number of their width. */
  lemma {:induction false} ComplementSum(g: string, e: string)
    requires |g| == |e| && AllDigits(g, 2) && AllDigits(e, 2)
    requires forall i :: 0 <= i < |g| ==> g[i] != e[i]
    ensures Value(g, 2) + Value(e, 2) == Pow2(|g|) - 1
  {
    if g != [] {
      var m := |g| - 1;
      ComplementSum(g[..m], e[..m]);
      assert DigitValue(g[m], 2) + DigitValue(e[m], 2) == 1;
    }
  }

  /** With no tied column, epsilon is gamma with every bit flipped, so the two
      rates add up to 2^n - 1; a tied column leaves both bits 0. */
  lemma GammaEpsilon(report: seq<string>, n: nat)
    ensures forall i :: 0 <= i < n && CountAt(report, i, '1') == CountAt(report, i, '0') ==>
              Gamma(report, n)[i] == '0' && Epsilon(report, n)[i] == '0'
    ensures (forall i :: 0 <= i < n ==> CountAt(report, i, '1') != CountAt(report, i, '0')) ==>
              Value(Gamma(report, n), 2) + Value(Epsilon(report, n), 2) == Pow2(n) - 1
  {
    if forall i :: 0 <= i < n ==> CountAt(report, i, '1') != CountAt(report, i, '0') {
      ComplementSum(Gamma(report, n), Epsilon(report, n));
    }
  }

  /** A bit string of at most 16 bits always fits a u16. */
  lemma {:induction false} ValueBound(s: string)
    requires AllDigits(s, 2)
    ensures Value(s, 2) < Pow2(|s|)
  {
    if s != [] {
      ValueBound(s[..|s| - 1]);
    }
  }

  lemma {:induction false} Pow2Mono(a: nat, b: nat)
    requires a <= b
    ensures Pow2(a) <= Pow2(b)
  {
    if a < b {
      Pow2Mono(a, b - 1);
    }
  }

  lemma Pow2Sixteen()
    ensures Pow2(16) == 0x1_0000
  {
    assert Pow2(4) == 16;
    assert Pow2(8) == 16 * Pow2(4);
    assert Pow2(12) == 16 * Pow2(8);
    assert Pow2(16) == 16 * Pow2(12);
  }

  /** A well-formed report of width 1 to 16 always has a power consumption;
      the only failures are an empty report, a bad line or an empty first line. */
  lemma PowerConsumptionDefined(report: seq<string>)
    requires report != [] && AllBitsBelow(report, |report[0]|)
    requires 1 <= |report[0]| <= 16
    ensures PowerConsumption(report).Success?
  {
    var n := |report[0]|;
    ValueBound(Gamma(report, n));
    ValueBound(Epsilon(report, n));
    Pow2Mono(n, 16);
    Pow2Sixteen();
  }

  // ---------------------------------------------------------------------------
  // Part two
  // ---------------------------------------------------------------------------

  /** Which rating `recurse` narrows the report down to. */
  datatype BitCriteria = OxygenGenerator | Co2Scrubber

  /** The character a line must hold at the current position to be kept:
      the most common bit for oxygen (1 on a tie), the least common one for
      CO2 (0 on a tie). */
  function Required(criteria: BitCriteria, ones: nat, zeros: nat): char {
    match criteria
    case OxygenGenerator => if ones >= zeros then '1' else '0'
    case Co2Scrubber => if zeros <= ones then '0' else '1'
  }

  /** The lines holding `c` at `pos`, in their original order. */
  function Filter(lines: seq<string>, pos: nat, c: char): seq<string> {
    if lines == [] then []
    else
      var last := lines[|lines| - 1];
      Filter(lines[..|lines| - 1], pos, c) + (if HasAt(last, pos, c) then [last] else [])
  }

  /** The filter keeps as many lines as hold `c` at `pos`, each one of the
      given lines and holding `c` there. */
  lemma {:induction false} FilterMembers(lines: seq<string>, pos: nat, c: char)
    ensures |Filter(lines, pos, c)| == CountAt(lines, pos, c)
    ensures forall i :: 0 <= i < |Filter(lines, pos, c)| ==>
              Filter(lines, pos, c)[i] in lines && HasAt(Filter(lines, pos, c)[i], pos, c)
  {
    if lines != [] {
      var init := lines[..|lines| - 1];
      FilterMembers(init, pos, c);
      assert forall s :: s in init ==> s in lines;
    }
  }

  /** A line is kept exactly when it holds `c` at `pos`. */
  lemma {:induction false} FilterKeeps(lines: seq<string>, pos: nat, c: char, s: string)
    ensures s in Filter(lines, pos, c) <==> s in lines && HasAt(s, pos, c)
  {
    if lines != [] {
      var init := lines[..|lines| - 1];
      FilterKeeps(init, pos, c, s);
      assert lines == init + [lines[|lines| - 1]];
    }
  }

  /** Filtering commutes with concatenation, so the kept lines stay in order. */
  lemma {:induction false} FilterAppend(a: seq<string>, b: seq<string>, pos: nat, c: char)
    ensures Filter(a + b, pos, c) == Filter(a, pos, c) + Filter(b, pos, c)
  {
    if b != [] {
      var init := b[..|b| - 1];
      FilterAppend(a, init, pos, c);
      assert (a + b)[..|a + b| - 1] == a + init;
    } else {
      assert a + b == a;
    }
  }

  /** The filter picks out the lines at the matching indices, in increasing
      order: given those indices, its result can be read off directly. */
  lemma {:induction false} FilterIndices(lines: seq<string>, pos: nat, c: char, idx: seq<nat>)
    requires forall j :: 0 <= j < |idx| ==> idx[j] < |lines|
    requires forall i, j :: 0 <= i < j < |idx| ==> idx[i] < idx[j]
    requires forall k :: 0 <= k < |lines| ==> (k in idx <==> HasAt(lines[k], pos, c))
    ensures Filter(lines, pos, c) == seq(|idx|, j requires 0 <= j < |idx| => lines[idx[j]])
  {
    if lines == [] {
      FirstIndex(idx);
      return;
    }
    var n := |lines| - 1;
    var init := lines[..n];
    if HasAt(lines[n], pos, c) {
      var m := |idx| - 1;
      LastIndex(idx, n);
      FilterIndices(init, pos, c, idx[..m]);
      assert forall j :: 0 <= j < m ==> init[idx[..m][j]] == lines[idx[j]];
    } else {
      BelowIndex(idx, n);
      FilterIndices(init, pos, c, idx);
      assert forall j :: 0 <= j < |idx| ==> init[idx[j]] == lines[idx[j]];
    }
  }

  /** The largest of increasing indices up to `n`, `n` among them, is the last. */
  lemma LastIndex(idx: seq<nat>, n: nat)
    requires forall j :: 0 <= j < |idx| ==> idx[j] <= n
    requires forall i, j :: 0 <= i < j < |idx| ==> idx[i] < idx[j]
    requires n in idx
    ensures |idx| > 0 && idx[|idx| - 1] == n
    ensures forall j :: 0 <= j < |idx| - 1 ==> idx[j] < n
    ensures forall k :: k < n ==> (k in idx[..|idx| - 1] <==> k in idx)
  {
    var m := |idx| - 1;
    var i :| 0 <= i < |idx| && idx[i] == n;
    assert idx[m] <= n;
    assert forall j :: 0 <= j < m ==> idx[j] < idx[m];
    assert i == m;
    forall k | k < n && k in idx
      ensures k in idx[..m]
    {
      var j :| 0 <= j < |idx| && idx[j] == k;
      assert idx[..m][j] == k;
    }
  }

  /** Indices up to `n` that leave `n` out are all below `n`. */
  lemma BelowIndex(idx: seq<nat>, n: nat)
    requires forall j :: 0 <= j < |idx| ==> idx[j] <= n
    requires n !in idx
    ensures forall j :: 0 <= j < |idx| ==> idx[j] < n
  {
    forall j | 0 <= j < |idx|
      ensures idx[j] < n
    {
      assert idx[j] in idx;
    }
  }

  lemma FirstIndex(idx: seq<nat>)
    ensures idx != [] ==> idx[0] in idx
  {
  }

  /** The length of the longest line (0 for no lines). */
  function MaxLength(lines: seq<string>): (m: nat)
    ensures forall i :: 0 <= i < |lines| ==> |lines[i]| <= m
    ensures lines == [] ==> m == 0
    ensures lines != [] ==> exists i :: 0 <= i < |lines| && |lines[i]| == m
  {
    if lines == [] then 0
    else
      var m := MaxLength(lines[..|lines| - 1]);
      if |lines[|lines| - 1]| > m then |lines[|lines| - 1]| else m
  }

  /** Every line has a bit at `pos`. */
  predicate BitsAt(lines: seq<string>, pos: nat) {
    forall i :: 0 <= i < |lines| ==> pos < |lines[i]| && IsBit(lines[i][pos])
  }

  /** Lines with bits in their first `n` positions have a bit at each of them. */
  lemma BitsAtBelow(lines: seq<string>, pos: nat, n: nat)
    requires AllBitsBelow(lines, n) && pos < n
    ensures BitsAt(lines, pos)
  {
    forall i | 0 <= i < |lines|
      ensures pos < |lines[i]| && IsBit(lines[i][pos])
    {
      assert BitsBelow(lines[i], n);
    }
  }

  /** The rating `recurse` arrives at from position `pos`: the counting loop
      fails on a missing character or a non-bit, the filter keeps the lines
      with the required bit, one line left is the answer, none left is an
      error, and more than one is narrowed further from the next position. */
  function RatingOf(lines: seq<string>, pos: nat, criteria: BitCriteria): (r: Result<string, Error>)
    ensures r.Failure? ==> r.error == BadCharacter || r.error == NoLineLeft
    decreases MaxLength(lines) - pos
  {
    if !BitsAt(lines, pos) then Failure(BadCharacter)
    else
      var required := Required(criteria, CountAt(lines, pos, '1'), CountAt(lines, pos, '0'));
      var filtered := Filter(lines, pos, required);
      if |filtered| == 1 then Success(filtered[0])
      else if |filtered| == 0 then Failure(NoLineLeft)
      else
        FilterMembers(lines, pos, required);
        assert MaxLength(filtered) <= MaxLength(lines) && pos < |filtered[0]|;
        RatingOf(filtered, pos + 1, criteria)
  }

  /** The counting loop of `recurse`: the number of ones and of zeros at
      `pos`; a line without a bit there is an error. */
  method CountAtPosition(input: seq<string>, pos: nat) returns (r: Result<(nat, nat), Error>)
    ensures r.Success? <==> BitsAt(input, pos)
    ensures r.Failure? ==> r.error == BadCharacter
    ensures r.Success? ==> r.value == (CountAt(input, pos, '1'), CountAt(input, pos, '0'))
  {
    var numOnes, numZeros := 0, 0;
    for k := 0 to |input|
      invariant BitsAt(input[..k], pos)
      invariant numOnes == CountAt(input[..k], pos, '1') && numZeros == CountAt(input[..k], pos, '0')
    {
      var s := input[k];
      CountAtStep(input, k, pos, '0');
      CountAtStep(input, k, pos, '1');
      if pos >= |s| {
        return Failure(BadCharacter);
      }
      var charAtPos := s[pos];
      if charAtPos == '0' {
        numZeros := numZeros + 1;
      } else if charAtPos == '1' {
        numOnes := numOnes + 1;
      } else {
        return Failure(BadCharacter);
      }
      assert input[..k + 1] == input[..k] + [s];
    }
    assert input[..|input|] == input;
    return Success((numOnes, numZeros));
  }

  /** `recurse`: counts the bits at the position, filters by the criteria and
      recurses on the filtered lines while more than one is left. */
  method Rating(position: Option<nat>, input: seq<string>, criteria: BitCriteria) returns (r: Result<string, Error>)
    ensures r == RatingOf(input, if position.Some? then position.value else 0, criteria)
    decreases MaxLength(input) - (if position.Some? then position.value else 0)
  {
    var pos := if position.Some? then position.value else 0;
    var counts :- CountAtPosition(input, pos);
    var required := Required(criteria, counts.0, counts.1);
    var filtered := Filter(input, pos, required);
    if |filtered| == 1 {
      return Success(filtered[0]);
    } else if |filtered| == 0 {
      return Failure(NoLineLeft);
    }
    FilterMembers(input, pos, required);
    assert MaxLength(filtered) <= MaxLength(input) && pos < |filtered[0]|;
    r := Rating(Some(pos + 1), filtered, criteria);
  }

  /** A rating is always one of the lines it started from. */
  lemma {:induction false} RatingInInput(lines: seq<string>, pos: nat, criteria: BitCriteria)
    ensures RatingOf(lines, pos, criteria).Success? ==> RatingOf(lines, pos, criteria).value in lines
    decreases MaxLength(lines) - pos
  {
    if BitsAt(lines, pos) {
      var required := Required(criteria, CountAt(lines, pos, '1'), CountAt(lines, pos, '0'));
      var filtered := Filter(lines, pos, required);
      FilterMembers(lines, pos, required);
      if |filtered| > 1 {
        assert MaxLength(filtered) <= MaxLength(lines) && pos < |filtered[0]|;
        RatingInInput(filtered, pos + 1, criteria);
      }
    }
  }

  /** The oxygen criteria keep at least one of a non-empty list of lines. */
  lemma OxygenKeepsSome(lines: seq<string>, pos: nat)
    requires lines != [] && BitsAt(lines, pos)
    ensures |Filter(lines, pos, Required(OxygenGenerator, CountAt(lines, pos, '1'), CountAt(lines, pos, '0')))| >= 1
  {
    CountAtBits(lines, pos);
    FilterMembers(lines, pos, '0');
    FilterMembers(lines, pos, '1');
  }

  /** The CO2 criteria empty a non-empty list exactly when all its lines hold
      the same bit at the position. */
  lemma Co2EmptiesUnanimous(lines: seq<string>, pos: nat)
    requires lines != [] && BitsAt(lines, pos)
    ensures |Filter(lines, pos, Required(Co2Scrubber, CountAt(lines, pos, '1'), CountAt(lines, pos, '0')))| == 0
            <==> CountAt(lines, pos, '1') == |lines| || CountAt(lines, pos, '0') == |lines|
  {
    CountAtBits(lines, pos);
    FilterMembers(lines, pos, '0');
    FilterMembers(lines, pos, '1');
  }

  /** Hence the oxygen rating of a non-empty report never runs out of lines. */
  lemma {:induction false} OxygenNeverEmpty(lines: seq<string>, pos: nat)
    requires lines != []
    ensures RatingOf(lines, pos, OxygenGenerator) != Failure(NoLineLeft)
    decreases MaxLength(lines) - pos
  {
    if BitsAt(lines, pos) {
      OxygenKeepsSome(lines, pos);
      var required := Required(OxygenGenerator, CountAt(lines, pos, '1'), CountAt(lines, pos, '0'));
      var filtered := Filter(lines, pos, required);
      if |filtered| > 1 {
        FilterMembers(lines, pos, required);
        assert MaxLength(filtered) <= MaxLength(lines) && pos < |filtered[0]|;
        OxygenNeverEmpty(filtered, pos + 1);
      }
    }
  }

  /** A report of one line has that line as its oxygen rating, but no CO2
      rating: its single bit is unanimous, so the CO2 filter removes it. */
  lemma SingleLine(s: string, pos: nat)
    requires pos < |s| && IsBit(s[pos])
    ensures RatingOf([s], pos, OxygenGenerator) == Success(s)
    ensures RatingOf([s], pos, Co2Scrubber) == Failure(NoLineLeft)
  {
    assert BitsAt([s], pos);
    assert [s][..0] == [];
    assert forall c :: CountAt([s], pos, c) == if HasAt(s, pos, c) then 1 else 0;
    assert forall c :: Filter([s], pos, c) == if HasAt(s, pos, c) then [s] else [];
  }

  /** The life support rating: both ratings found, read as u64 binary numbers
      and multiplied, in the order `part_two` does these steps. */
  function LifeSupport(input: seq<string>): (r: Result<nat, Error>)
    ensures r.Success? ==> r.value <= U64_MAX
  {
    var oxygen :- RatingOf(input, 0, OxygenGenerator);
    var co2 :- RatingOf(input, 0, Co2Scrubber);
    var ogr :- ParseBinary(oxygen, U64_MAX);
    var csr :- ParseBinary(co2, U64_MAX);
    if ogr * csr <= U64_MAX then Success(ogr * csr) else Failure(Overflow)
  }

  /** `part_two`: the life support rating, computed as the source does. */
  method PartTwo(input: seq<string>) returns (r: Result<nat, Error>)
    ensures r == LifeSupport(input)
  {
    var oxygen :- Rating(None, input, OxygenGenerator);
    var co2 :- Rating(None, input, Co2Scrubber);
    assert RatingOf(input, 0, OxygenGenerator) == Success(oxygen);
    assert RatingOf(input, 0, Co2Scrubber) == Success(co2);
    var ogr :- ParseBinary(oxygen, U64_MAX);
    var csr :- ParseBinary(co2, U64_MAX);
    var product := ogr * csr;
    if product > U64_MAX {
      return Failure(Overflow);
    }
    return Success(product);
  }

  /** An empty report has neither rating. */
  lemma EmptyReportFails()
    ensures LifeSupport([]) == Failure(NoLineLeft)
  {
    assert BitsAt([], 0);
  }

  // ---------------------------------------------------------------------------
  // get_bit_at
  // ---------------------------------------------------------------------------

  type U8 = n: nat | n < 0x100
  type U16 = x: nat | x <= U16_MAX

  /** `get_bit_at`: whether bit `n` of a u16 is set, bit 0 being the least
      significant one (the mask test `input & (1 << n) != 0` written as a
      division); positions 16 and up are an error. */
  function GetBitAt(input: U16, n: U8): (r: Result<bool, ()>)
    ensures r.Success? <==> n < 16
  {
    if n < 16 then Success((input / Pow2(n)) % 2 == 1) else Failure(())
  }

  lemma DivUnique(a: nat, m: nat, q: nat, r: nat)
    requires 0 <= r < m && a == q * m + r
    ensures a / m == q && a % m == r
  {
    var q', r' := a / m, a % m;
    assert a == q' * m + r';
    MulLe(q' + 1, q, m);
    MulLe(q + 1, q', m);
  }

  lemma MulLe(a: nat, b: nat, m: nat)
    ensures a <= b ==> a * m <= b * m
  {
  }

  /** Appending a bit below a number shifts its bits up by one. */
  lemma ShiftIn(v: nat, d: nat, n: nat)
    requires d < 2 && n >= 1
    ensures (2 * v + d) / Pow2(n) == v / Pow2(n - 1)
  {
    var p := Pow2(n - 1);
    var q := v / p;
    var r := v % p;
    assert v == q * p + r;
    assert 2 * v + d == q * (2 * p) + (2 * r + d);
    DivUnique(2 * v + d, 2 * p, q, 2 * r + d);
  }

  /** Bit `n` of the value of a bit string is its `n`-th character from the right. */
  lemma {:induction false} BitOfValue(s: string, n: nat)
    requires AllDigits(s, 2) && n < |s|
    ensures (Value(s, 2) / Pow2(n)) % 2 == DigitValue(s[|s| - 1 - n], 2)
  {
    var m := |s| - 1;
    var d := DigitValue(s[m], 2);
    if n == 0 {
      DivUnique(Value(s, 2), 2, Value(s[..m], 2), d);
    } else {
      ShiftIn(Value(s[..m], 2), d, n);
      BitOfValue(s[..m], n - 1);
    }
  }

  /** `get_bit_at` reads back the bits of a sixteen-bit string, the last
      character being bit 0. */
  lemma GetBitOfBinary(s: string, n: U8)
    requires |s| == 16 && AllDigits(s, 2)
    ensures Value(s, 2) <= U16_MAX
    ensures n < 16 ==> GetBitAt(Value(s, 2), n) == Success(s[15 - n] == '1')
    ensures n >= 16 ==> GetBitAt(Value(s, 2), n).Failure?
  {
    ValueBound(s);
    Pow2Sixteen();
    if n < 16 {
      BitOfValue(s, n);
    }
  }

  // ---------------------------------------------------------------------------
  // The worked example
  // ---------------------------------------------------------------------------

  /** The twelve-line report of the puzzle statement. */
  const Example: seq<string> :=
    ["00100", "11110", "10110", "10111", "10101", "01111", "00111", "11100", "10000", "11001", "00010", "01010"]

  /** `idx` lists, in increasing order, exactly the lines holding `c` at `pos`. */
  predicate Selects(lines: seq<string>, pos: nat, c: char, idx: seq<nat>) {
    && (forall j :: 0 <= j < |idx| ==> idx[j] < |lines|)
    && (forall i, j :: 0 <= i < j < |idx| ==> idx[i] < idx[j])
    && (forall k :: 0 <= k < |lines| ==> (k in idx <==> HasAt(lines[k], pos, c)))
  }

  /** The lines at the positions `idx`, in that order. */
  function Pick(lines: seq<string>, idx: seq<nat>): seq<string>
    requires forall j :: 0 <= j < |idx| ==> idx[j] < |lines|
  {
    seq(|idx|, j requires 0 <= j < |idx| => lines[idx[j]])
  }

  lemma FilterPick(lines: seq<string>, pos: nat, c: char, idx: seq<nat>)
    requires Selects(lines, pos, c, idx)
    ensures Filter(lines, pos, c) == Pick(lines, idx)
    ensures CountAt(lines, pos, c) == |idx|
  {
    FilterIndices(lines, pos, c, idx);
    FilterMembers(lines, pos, c);
  }

  /** One round of the rating search, with the surviving lines named. */
  lemma RatingRound(lines: seq<string>, pos: nat, criteria: BitCriteria, next: seq<string>)
    requires BitsAt(lines, pos)
    requires Filter(lines, pos, Required(criteria, CountAt(lines, pos, '1'), CountAt(lines, pos, '0'))) == next
    ensures |next| == 1 ==> RatingOf(lines, pos, criteria) == Success(next[0])
    ensures |next| > 1 ==> RatingOf(lines, pos, criteria) == RatingOf(next, pos + 1, criteria)
  {
  }

  // The lines that survive each round of the two searches over the example.
  const OxygenRound1: seq<string> := Pick(Example, [1, 2, 3, 4, 7, 8, 9])
  const OxygenRound2: seq<string> := Pick(OxygenRound1, [1, 2, 3, 5])
  const OxygenRound3: seq<string> := Pick(OxygenRound2, [0, 1, 2])
  const OxygenRound4: seq<string> := Pick(OxygenRound3, [0, 1])
  const Co2Round1: seq<string> := Pick(Example, [0, 5, 6, 10, 11])
  const Co2Round2: seq<string> := Pick(Co2Round1, [1, 4])

  lemma ExampleFirstColumn()
    ensures BitsAt(Example, 0)
    ensures Filter(Example, 0, '1') == OxygenRound1 && CountAt(Example, 0, '1') == 7
  {
    ExampleWellFormed();
    BitsAtBelow(Example, 0, 5);
    FilterPick(Example, 0, '1', [1, 2, 3, 4, 7, 8, 9]);
  }

  lemma ExampleFirstZeros()
    ensures Filter(Example, 0, '0') == Co2Round1 && CountAt(Example, 0, '0') == 5
  {
    FilterPick(Example, 0, '0', [0, 5, 6, 10, 11]);
  }

  lemma OxygenStep0()
    ensures RatingOf(Example, 0, OxygenGenerator) == RatingOf(OxygenRound1, 1, OxygenGenerator)
  {
    ExampleFirstColumn();
    ExampleFirstZeros();
    RatingRound(Example, 0, OxygenGenerator, OxygenRound1);
  }

  lemma OxygenOnes1()
    ensures BitsAt(OxygenRound1, 1) && CountAt(OxygenRound1, 1, '1') == 3
  {
    FilterPick(OxygenRound1, 1, '1', [0, 4, 6]);
  }

  lemma OxygenZeros1()
    ensures Filter(OxygenRound1, 1, '0') == OxygenRound2 && CountAt(OxygenRound1, 1, '0') == 4
  {
    FilterPick(OxygenRound1, 1, '0', [1, 2, 3, 5]);
  }

  lemma OxygenStep1()
    ensures RatingOf(OxygenRound1, 1, OxygenGenerator) == RatingOf(OxygenRound2, 2, OxygenGenerator)
  {
    OxygenOnes1();
    OxygenZeros1();
    RatingRound(OxygenRound1, 1, OxygenGenerator, OxygenRound2);
  }

  lemma OxygenStep2()
    ensures RatingOf(OxygenRound2, 2, OxygenGenerator) == RatingOf(OxygenRound3, 3, OxygenGenerator)
  {
    FilterPick(OxygenRound2, 2, '1', [0, 1, 2]);
    FilterPick(OxygenRound2, 2, '0', [3]);
    RatingRound(OxygenRound2, 2, OxygenGenerator, OxygenRound3);
  }

  lemma OxygenStep3()
    ensures RatingOf(OxygenRound3, 3, OxygenGenerator) == RatingOf(OxygenRound4, 4, OxygenGenerator)
  {
    FilterPick(OxygenRound3, 3, '1', [0, 1]);
    FilterPick(OxygenRound3, 3, '0', [2]);
    RatingRound(OxygenRound3, 3, OxygenGenerator, OxygenRound4);
  }

  lemma OxygenStep4()
    ensures RatingOf(OxygenRound4, 4, OxygenGenerator) == Success("10111")
  {
    FilterPick(OxygenRound4, 4, '1', [1]);
    FilterPick(OxygenRound4, 4, '0', [0]);
    RatingRound(OxygenRound4, 4, OxygenGenerator, Pick(OxygenRound4, [1]));
  }

  lemma Co2Step0()
    ensures RatingOf(Example, 0, Co2Scrubber) == RatingOf(Co2Round1, 1, Co2Scrubber)
  {
    ExampleFirstColumn();
    ExampleFirstZeros();
    RatingRound(Example, 0, Co2Scrubber, Co2Round1);
  }

  lemma Co2Step1()
    ensures RatingOf(Co2Round1, 1, Co2Scrubber) == RatingOf(Co2Round2, 2, Co2Scrubber)
  {
    FilterPick(Co2Round1, 1, '1', [1, 4]);
    FilterPick(Co2Round1, 1, '0', [0, 2, 3]);
    RatingRound(Co2Round1, 1, Co2Scrubber, Co2Round2);
  }

  lemma Co2Step2()
    ensures RatingOf(Co2Round2, 2, Co2Scrubber) == Success("01010")
  {
    FilterPick(Co2Round2, 2, '1', [0]);
    FilterPick(Co2Round2, 2, '0', [1]);
    RatingRound(Co2Round2, 2, Co2Scrubber, Pick(Co2Round2, [1]));
  }

  /** A binary string with a leading zero has the value of the string without it. */
  lemma {:induction false} ValueLeadingZero(s: string)
    requires AllDigits(s, 2)
    ensures AllDigits("0" + s, 2) && Value("0" + s, 2) == Value(s, 2)
  {
    if s != [] {
      var t := "0" + s;
      assert t[..|t| - 1] == "0" + s[..|s| - 1];
      ValueLeadingZero(s[..|s| - 1]);
    } else {
      assert "0" + s == "0";
    }
  }

  lemma ExampleRatingValues()
    ensures ParseBinary("10111", U64_MAX) == Success(23)
    ensures ParseBinary("01010", U64_MAX) == Success(10)
  {
    ParseShow(23, 2, U64_MAX);
    assert Show(23, 2) == "10111";
    ValueShow(10, 2);
    assert Show(10, 2) == "1010";
    ValueLeadingZero("1010");
    assert "0" + "1010" == "01010";
  }

  /** The life support rating is fixed by the two ratings and their values. */
  lemma LifeSupportOf(input: seq<string>, oxygen: string, co2: string, ogr: nat, csr: nat)
    requires RatingOf(input, 0, OxygenGenerator) == Success(oxygen)
    requires RatingOf(input, 0, Co2Scrubber) == Success(co2)
    requires ParseBinary(oxygen, U64_MAX) == Success(ogr)
    requires ParseBinary(co2, U64_MAX) == Success(csr)
    requires ogr * csr <= U64_MAX
    ensures LifeSupport(input) == Success(ogr * csr)
  {
  }

  /** The example's oxygen generator rating is 10111 (23), its CO2 scrubber
      rating 01010 (10), and its life support rating 230. */
  lemma ExampleLifeSupport()
    ensures RatingOf(Example, 0, OxygenGenerator) == Success("10111")
    ensures RatingOf(Example, 0, Co2Scrubber) == Success("01010")
    ensures LifeSupport(Example) == Success(230)
  {
    OxygenStep0();
    OxygenStep1();
    OxygenStep2();
    OxygenStep3();
    OxygenStep4();
    Co2Step0();
    Co2Step1();
    Co2Step2();
    ExampleRatingValues();
    LifeSupportOf(Example, "10111", "01010", 23, 10);
  }

  lemma ExampleWellFormed()
    ensures AllBitsBelow(Example, 5)
  {
  }

  lemma ExampleColumn(pos: nat, ones: seq<nat>)
    requires pos < 5
    requires Selects(Example, pos, '1', ones)
    ensures CountAt(Example, pos, '1') == |ones|
    ensures CountAt(Example, pos, '0') == 12 - |ones|
  {
    ExampleWellFormed();
    FilterPick(Example, pos, '1', ones);
    CountAtBits(Example, pos);
  }

  lemma ExampleColumn0()
    ensures CountAt(Example, 0, '1') == 7 && CountAt(Example, 0, '0') == 5
  {
    ExampleColumn(0, [1, 2, 3, 4, 7, 8, 9]);
  }

  lemma ExampleColumn1()
    ensures CountAt(Example, 1, '1') == 5 && CountAt(Example, 1, '0') == 7
  {
    ExampleColumn(1, [1, 5, 7, 9, 11]);
  }

  lemma ExampleColumn2()
    ensures CountAt(Example, 2, '1') == 8 && CountAt(Example, 2, '0') == 4
  {
    ExampleColumn(2, [0, 1, 2, 3, 4, 5, 6, 7]);
  }

  lemma ExampleColumn3()
    ensures CountAt(Example, 3, '1') == 7 && CountAt(Example, 3, '0') == 5
  {
    ExampleColumn(3, [1, 2, 3, 5, 6, 10, 11]);
  }

  lemma ExampleColumn4()
    ensures CountAt(Example, 4, '1') == 5 && CountAt(Example, 4, '0') == 7
  {
    ExampleColumn(4, [3, 4, 5, 6, 9]);
  }

  lemma ExampleRateValues()
    ensures ParseBinary("10110", U16_MAX) == Success(22)
    ensures ParseBinary("01001", U16_MAX) == Success(9)
  {
    ParseShow(22, 2, U16_MAX);
    assert Show(22, 2) == "10110";
    ValueShow(9, 2);
    assert Show(9, 2) == "1001";
    ValueLeadingZero("1001");
    assert "0" + "1001" == "01001";
  }

  /** The example's gamma rate is 10110 (22), its epsilon rate 01001 (9), and
      its power consumption 198. */
  lemma ExamplePowerConsumption()
    ensures Gamma(Example, 5) == "10110" && Epsilon(Example, 5) == "01001"
    ensures PowerConsumption(Example) == Success(198)
  {
    ExampleColumn0();
    ExampleColumn1();
    ExampleColumn2();
    ExampleColumn3();
    ExampleColumn4();
    ExampleWellFormed();
    ExampleRateValues();
  }
}
