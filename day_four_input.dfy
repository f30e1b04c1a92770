/** Day four, the input format: a line of comma-separated draws, a line that
    is skipped, then boards of five rows of whitespace-separated numbers with a
    blank line after each board. */
module DayFourInput {
  import opened Results
  import opened Text
  import opened DayFour

  // ---------------------------------------------------------------------------
  // parse_input
  // ---------------------------------------------------------------------------

  /** `str::parse::<u8>` on one number. */
  function Number(token: string): (r: Option<U8>)
    ensures r.Some? ==> ParseUnsigned(token, 10, 255) == Some(r.value)
    ensures r.None? ==> ParseUnsigned(token, 10, 255).None?
  {
    match ParseUnsigned(token, 10, 255)
    case Some(n) => Some(n)
    case None => None
  }

  /** The draws line: comma-separated u8 values. */
  function ParseDraws(line: string): (r: Result<seq<U8>, Error>)
    ensures r.Success? ==> |r.value| == |Split(line, ',')|
    ensures r.Success? <==> forall i :: 0 <= i < |Split(line, ',')| ==> Number(Split(line, ',')[i]).Some?
    ensures r.Success? ==> forall i :: 0 <= i < |r.value| ==> Number(Split(line, ',')[i]) == Some(r.value[i])
    ensures r.Failure? ==> r.error == BadNumber
  {
    match ParseEach(Split(line, ','), Number)
    case Success(numbers) => Success(numbers)
    case Failure(_) => Failure(BadNumber)
  }

  /** The row `row` of the working board filled from the tokens of one line,
      one token at a time: each token is read as a u8, then the row and the
      column it goes to must exist. */
  function FillRow(working: Grid, row: nat, tokens: seq<string>): Result<Grid, Error> {
    if tokens == [] then Success(working)
    else
      var i := |tokens| - 1;
      var filled :- FillRow(working, row, tokens[..i]);
      match Number(tokens[i])
      case None => Failure(BadNumber)
      case Some(n) =>
        if row >= 5 then Failure(TooManyRows)
        else if i >= 5 then Failure(TooManyColumns)
        else Success(filled[5 * row + i := NewUnmarked(n)])
  }

  /** What `parse_input` carries from line to line: the draws, the number of
      rows read into the working board, the working board, and the boards
      completed so far. */
  datatype Parser = Parser(numbers: seq<U8>, rows: nat, working: Grid, boards: seq<Grid>)

  /** The state before the first line: a default (blank) working board. */
  const Start: Parser := Parser([], 0, BlankGrid(), [])

  /** `Array2::default((5, 5))`. */
  function BlankGrid(): (g: Grid)
    ensures forall i :: 0 <= i < 25 ==> g[i] == Blank
  {
    seq(25, _ => Blank)
  }

  /** One line, trimmed, at position `index` of the input: the draws, the
      skipped line, or a line of a board. */
  function ParseLine(p: Parser, index: nat, raw: string): Result<Parser, Error> {
    if index == 0 then ReadDraws(p, Trim(raw))
    else if index == 1 then Success(p)
    else ReadBoardLine(p, Trim(raw))
  }

  function ReadDraws(p: Parser, line: string): Result<Parser, Error> {
    match ParseDraws(line)
    case Failure(e) => Failure(e)
    case Success(numbers) => Success(p.(numbers := numbers))
  }

  /** A blank line closes a board of exactly five rows; any other line is the
      next row of the working board, and the fifth row completes it. */
  function ReadBoardLine(p: Parser, line: string): Result<Parser, Error> {
    if line == [] then
      if p.rows != 5 then Failure(BlankLineInBoard) else Success(p.(rows := 0))
    else
      ReadRow(p, SplitWhitespace(line))
  }

  function ReadRow(p: Parser, tokens: seq<string>): Result<Parser, Error> {
    match FillRow(p.working, p.rows, tokens)
    case Failure(e) => Failure(e)
    case Success(working) =>
      var rows := p.rows + 1;
      Success(Parser(p.numbers, rows, working, if rows == 5 then p.boards + [working] else p.boards))
  }

  /** How one line, at a given position, takes the parser to its next state. */
  type Step = (Parser, nat, string) -> Result<Parser, Error>

  /** The lines read in order by `step`, the first of them at position `first`. */
  function Fold(step: Step, p: Parser, lines: seq<string>, first: nat): Result<Parser, Error> {
    if lines == [] then Success(p)
    else
      var q :- Fold(step, p, lines[..|lines| - 1], first);
      step(q, first + |lines| - 1, lines[|lines| - 1])
  }

  /** `parse_input` as a function of the text. */
  function Parse(raw: string): Result<Input, Error> {
    match Fold(ParseLine, Start, Lines(raw), 0)
    case Failure(e) => Failure(e)
    case Success(p) => Success(Input(p.numbers, p.boards))
  }

  /** A failure while reading some lines stays a failure whatever follows. */
  lemma {:induction false} FoldFails(step: Step, p: Parser, lines: seq<string>, first: nat, n: nat)
    requires n <= |lines| && Fold(step, p, lines[..n], first).Failure?
    ensures Fold(step, p, lines, first) == Fold(step, p, lines[..n], first)
  {
    if n < |lines| {
      var init := lines[..|lines| - 1];
      assert init[..n] == lines[..n];
      FoldFails(step, p, init, first, n);
    } else {
      assert lines[..n] == lines;
    }
  }

  lemma FoldStep(step: Step, p: Parser, lines: seq<string>, first: nat, n: nat)
    requires n < |lines|
    ensures Fold(step, p, lines[..n], first).Failure? ==> Fold(step, p, lines[..n + 1], first) == Fold(step, p, lines[..n], first)
    ensures Fold(step, p, lines[..n], first).Success? ==>
              Fold(step, p, lines[..n + 1], first) == step(Fold(step, p, lines[..n], first).value, first + n, lines[n])
  {
    var init := lines[..n + 1];
    assert init[..|init| - 1] == lines[..n];
    assert init[|init| - 1] == lines[n];
  }

  /** `parse_input`: the lines read in order into a working board that is
      reused from board to board; a copy of it is kept each time it receives
      its fifth row. */
  method ParseInput(raw: string) returns (r: Result<Input, Error>)
    ensures r == Parse(raw)
  {
    var lines := Lines(raw);
    var numbers: seq<U8> := [];
    var rows: nat := 0;
    var boards: seq<Grid> := [];
    var working := new Slot[25](_ => Blank);
    assert working[..] == Start.working;
    for index := 0 to |lines|
      invariant Fold(ParseLine, Start, lines[..index], 0) == Success(Parser(numbers, rows, working[..], boards))
    {
      FoldStep(ParseLine, Start, lines, 0, index);
      var next := ReadLine(numbers, rows, working, boards, index, lines[index]);
      if next.Failure? {
        FoldFails(ParseLine, Start, lines, 0, index + 1);
        return Failure(next.error);
      }
      numbers, rows, boards := next.value.0, next.value.1, next.value.2;
    }
    assert lines[..|lines|] == lines;
    return Success(Input(numbers, boards));
  }

  /** The body of the loop of `parse_input`: one line read into the draws,
      skipped, or read into the working board in place. */
  method ReadLine(numbers: seq<U8>, rows: nat, working: array<Slot>, boards: seq<Grid>, index: nat, raw: string)
    returns (r: Result<(seq<U8>, nat, seq<Grid>), Error>)
    requires working.Length == 25
    modifies working
    ensures r.Failure? ==> ParseLine(Parser(numbers, rows, old(working[..]), boards), index, raw) == Failure(r.error)
    ensures r.Success? ==> ParseLine(Parser(numbers, rows, old(working[..]), boards), index, raw)
                             == Success(Parser(r.value.0, r.value.1, working[..], r.value.2))
  {
    ghost var p := Parser(numbers, rows, working[..], boards);
    var line := Trim(raw);
    if index == 0 {
      assert ParseLine(p, index, raw) == ReadDraws(p, line);
      var drawn := ParseDraws(line);
      if drawn.Failure? {
        return Failure(drawn.error);
      }
      return Success((drawn.value, rows, boards));
    } else if index == 1 {
      return Success((numbers, rows, boards));
    }
    assert ParseLine(p, index, raw) == ReadBoardLine(p, line);
    if line == [] {
      if rows != 5 {
        return Failure(BlankLineInBoard);
      }
      return Success((numbers, 0, boards));
    }
    var tokens := SplitWhitespace(line);
    assert ReadBoardLine(p, line) == ReadRow(p, tokens);
    var filled := FillWorking(working, rows, tokens);
    if filled.Failure? {
      return Failure(filled.error);
    }
    var added := if rows + 1 == 5 then boards + [working[..]] else boards;
    RowReadFilled(p, tokens, working[..]);
    return Success((numbers, rows + 1, added));
  }

  /** A row whose tokens fill the working board is counted, and a fifth row
      completes the board. */
  lemma RowReadFilled(p: Parser, tokens: seq<string>, h: Grid)
    requires FillRow(p.working, p.rows, tokens) == Success(h)
    ensures ReadRow(p, tokens) == Success(Parser(p.numbers, p.rows + 1, h, if p.rows + 1 == 5 then p.boards + [h] else p.boards))
  {
  }

  /** The inner loop of `parse_input`: one row of the working board written in
      place from the tokens of a line. */
  method FillWorking(working: array<Slot>, row: nat, tokens: seq<string>) returns (r: Result<(), Error>)
    requires working.Length == 25
    modifies working
    ensures r.Success? <==> FillRow(old(working[..]), row, tokens).Success?
    ensures r.Success? ==> working[..] == FillRow(old(working[..]), row, tokens).value
    ensures r.Failure? ==> r.error == FillRow(old(working[..]), row, tokens).error
  {
    ghost var start: Grid := working[..];
    for i := 0 to |tokens|
      invariant FillRow(start, row, tokens[..i]) == Success(working[..])
    {
      var n := Number(tokens[i]);
      if n.None? || row >= 5 || i >= 5 {
        FillRowStops(start, row, tokens, i, working[..]);
        return Failure(if n.None? then BadNumber else if row >= 5 then TooManyRows else TooManyColumns);
      }
      FillRowNext(start, row, tokens, i, working[..], n.value);
      working[5 * row + i] := NewUnmarked(n.value);
    }
    assert tokens[..|tokens|] == tokens;
    return Success(());
  }

  /** One more u8 token of a row that has room for it is written into its
      slot. */
  lemma FillRowNext(start: Grid, row: nat, tokens: seq<string>, i: nat, w: Grid, n: U8)
    requires i < |tokens| && FillRow(start, row, tokens[..i]) == Success(w)
    requires Number(tokens[i]) == Some(n) && row < 5 && i < 5
    ensures FillRow(start, row, tokens[..i + 1]) == Success(w[5 * row + i := NewUnmarked(n)])
  {
    var t := tokens[..i + 1];
    assert t[..i] == tokens[..i] && t[i] == tokens[i];
    FillRowLast(start, row, t, w);
  }

  /** A token that is not a u8, a row past the fifth or a sixth token ends the
      filling of a row with the matching error. */
  lemma FillRowStops(start: Grid, row: nat, tokens: seq<string>, i: nat, w: Grid)
    requires i < |tokens| && FillRow(start, row, tokens[..i]) == Success(w)
    requires Number(tokens[i]).None? || row >= 5 || i >= 5
    ensures FillRow(start, row, tokens)
              == Failure(if Number(tokens[i]).None? then BadNumber else if row >= 5 then TooManyRows else TooManyColumns)
  {
    var t := tokens[..i + 1];
    assert t[..i] == tokens[..i] && t[i] == tokens[i];
    FillRowLast(start, row, t, w);
    FillRowFails(start, row, tokens, i + 1);
  }

  /** The last token of a row decides the row once the others have filled it. */
  lemma FillRowLast(start: Grid, row: nat, t: seq<string>, w: Grid)
    requires t != [] && FillRow(start, row, t[..|t| - 1]) == Success(w)
    ensures FillRow(start, row, t)
              == match Number(t[|t| - 1])
                 case None => Failure(BadNumber)
                 case Some(n) =>
                   if row >= 5 then Failure(TooManyRows)
                   else if |t| - 1 >= 5 then Failure(TooManyColumns)
                   else Success(w[5 * row + |t| - 1 := NewUnmarked(n)])
  {
  }

  /** A failure while filling a row stays a failure whatever tokens follow. */
  lemma {:induction false} FillRowFails(working: Grid, row: nat, tokens: seq<string>, n: nat)
    requires n <= |tokens| && FillRow(working, row, tokens[..n]).Failure?
    ensures FillRow(working, row, tokens) == FillRow(working, row, tokens[..n])
  {
    if n < |tokens| {
      var init := tokens[..|tokens| - 1];
      assert init[..n] == tokens[..n];
      FillRowFails(working, row, init, n);
    } else {
      assert tokens[..n] == tokens;
    }
  }

  // ---------------------------------------------------------------------------
  // Properties of parsing
  // ---------------------------------------------------------------------------

  /** Filling a row succeeds exactly when every token is a u8 and, if there is
      any token, the row exists and there are at most five tokens.  The tokens
      then replace the first slots of the row, left to right, with unmarked
      slots; every other slot keeps what it held, including the rest of a
      short row. */
  lemma FillRowSpec(working: Grid, row: nat, tokens: seq<string>)
    ensures FillRow(working, row, tokens).Success? <==>
              && (tokens == [] || (row < 5 && |tokens| <= 5))
              && forall j :: 0 <= j < |tokens| ==> Number(tokens[j]).Some?
    ensures FillRow(working, row, tokens).Success? ==> forall i :: 0 <= i < 25 ==>
              FillRow(working, row, tokens).value[i]
                == if 5 * row <= i < 5 * row + |tokens| then NewUnmarked(Number(tokens[i - 5 * row]).value)
                   else working[i]
  {
    FillRowSucceeds(working, row, tokens);
    if FillRow(working, row, tokens).Success? {
      FillRowSlots(working, row, tokens);
    }
  }

  lemma {:induction false} FillRowSucceeds(working: Grid, row: nat, tokens: seq<string>)
    ensures FillRow(working, row, tokens).Success? <==>
              && (tokens == [] || (row < 5 && |tokens| <= 5))
              && forall j :: 0 <= j < |tokens| ==> Number(tokens[j]).Some?
  {
    if tokens != [] {
      var n := |tokens| - 1;
      var init := tokens[..n];
      FillRowSucceeds(working, row, init);
      NumbersSnoc(tokens, init);
      if FillRow(working, row, init).Failure? {
        assert FillRow(working, row, tokens).Failure?;
      }
    }
  }

  /** Every token of a nonempty row is a number exactly when every token
      but the last is and the last is too. */
  lemma NumbersSnoc(tokens: seq<string>, init: seq<string>)
    requires tokens != [] && init == tokens[..|tokens| - 1]
    ensures (forall j :: 0 <= j < |tokens| ==> Number(tokens[j]).Some?) <==>
              && (forall j :: 0 <= j < |init| ==> Number(init[j]).Some?)
              && Number(tokens[|tokens| - 1]).Some?
  {
    assert forall j :: 0 <= j < |init| ==> init[j] == tokens[j];
  }

  lemma {:induction false} FillRowSlots(working: Grid, row: nat, tokens: seq<string>)
    requires FillRow(working, row, tokens).Success?
    requires forall j :: 0 <= j < |tokens| ==> Number(tokens[j]).Some?
    ensures forall i :: 0 <= i < 25 ==>
              FillRow(working, row, tokens).value[i]
                == if 5 * row <= i < 5 * row + |tokens| then NewUnmarked(Number(tokens[i - 5 * row]).value)
                   else working[i]
  {
    if tokens != [] {
      var n := |tokens| - 1;
      var init := tokens[..n];
      var prior := FillRow(working, row, init);
      assert prior.Success?;
      FillRowSlots(working, row, init);
      assert forall j :: 0 <= j < n ==> init[j] == tokens[j];
      FillRowLast(working, row, tokens, prior.value);
    }
  }

  /** Every slot of the working board and of every completed board is unmarked. */
  predicate Unmarked(p: Parser) {
    && (forall i :: 0 <= i < 25 ==> !p.working[i].marked)
    && (forall b, i :: 0 <= b < |p.boards| && 0 <= i < 25 ==> !p.boards[b][i].marked)
  }

  lemma ParseLineUnmarked(p: Parser, index: nat, raw: string)
    requires Unmarked(p) && ParseLine(p, index, raw).Success?
    ensures Unmarked(ParseLine(p, index, raw).value)
  {
    var line := Trim(raw);
    if index >= 2 && line != [] {
      FillRowSpec(p.working, p.rows, SplitWhitespace(line));
      assert ParseLine(p, index, raw) == ReadRow(p, SplitWhitespace(line));
    }
  }

  lemma {:induction false} FoldUnmarked(p: Parser, lines: seq<string>, first: nat)
    requires Unmarked(p) && Fold(ParseLine, p, lines, first).Success?
    ensures Unmarked(Fold(ParseLine, p, lines, first).value)
  {
    if lines != [] {
      var init := lines[..|lines| - 1];
      FoldUnmarked(p, init, first);
      ParseLineUnmarked(Fold(ParseLine, p, init, first).value, first + |lines| - 1, lines[|lines| - 1]);
    }
  }

  /** Every slot of every parsed board starts unmarked. */
  lemma ParsedUnmarked(raw: string)
    requires Parse(raw).Success?
    ensures forall b, i :: 0 <= b < |Parse(raw).value.boards| && 0 <= i < 25 ==> !Parse(raw).value.boards[b][i].marked
  {
    assert Unmarked(Start);
    FoldUnmarked(Start, Lines(raw), 0);
  }

  /** A blank line reached when the current board has some rows but not five
      ends the parse with an error. */
  lemma BlankLineInBoardFails(lines: seq<string>, k: nat, q: Parser)
    requires 2 <= k < |lines| && Trim(lines[k]) == []
    requires Fold(ParseLine, Start, lines[..k], 0) == Success(q) && q.rows != 5
    ensures Fold(ParseLine, Start, lines, 0) == Failure(BlankLineInBoard)
  {
    BlankLineRejected(q, k, lines[k]);
    FoldStops(ParseLine, Start, lines, 0, k, q, BlankLineInBoard);
  }

  lemma BlankLineRejected(q: Parser, index: nat, raw: string)
    requires 2 <= index && Trim(raw) == [] && q.rows != 5
    ensures ParseLine(q, index, raw) == Failure(BlankLineInBoard)
  {
    assert ParseLine(q, index, raw) == ReadBoardLine(q, Trim(raw));
  }

  /** The first line that `step` rejects ends the fold with its error. */
  lemma FoldStops(step: Step, p: Parser, lines: seq<string>, first: nat, k: nat, q: Parser, e: Error)
    requires k < |lines| && Fold(step, p, lines[..k], first) == Success(q)
    requires step(q, first + k, lines[k]) == Failure(e)
    ensures Fold(step, p, lines, first) == Failure(e)
  {
    FoldStep(step, p, lines, first, k);
    FoldFails(step, p, lines, first, k + 1);
  }

  /** Reading one line is one step. */
  lemma FoldOne(step: Step, p: Parser, line: string, first: nat)
    ensures Fold(step, p, [line], first) == step(p, first, line)
  {
    assert [line][..0] == [];
  }

  /** Reading some lines to a state, then more lines from there, is reading them all. */
  lemma FoldJoined(step: Step, p: Parser, a: seq<string>, b: seq<string>, first: nat, mid: nat, q: Parser, r: Parser)
    requires mid == first + |a|
    requires Fold(step, p, a, first) == Success(q) && Fold(step, q, b, mid) == Success(r)
    ensures Fold(step, p, a + b, first) == Success(r)
  {
    FoldAppend(step, p, a, b, first);
  }

  /** Reading some lines and then more is reading them all. */
  lemma {:induction false} FoldAppend(step: Step, p: Parser, a: seq<string>, b: seq<string>, first: nat)
    ensures Fold(step, p, a, first).Failure? ==> Fold(step, p, a + b, first) == Fold(step, p, a, first)
    ensures Fold(step, p, a, first).Success? ==> Fold(step, p, a + b, first) == Fold(step, Fold(step, p, a, first).value, b, first + |a|)
  {
    if b == [] {
      assert a + b == a;
    } else {
      var init := b[..|b| - 1];
      FoldAppend(step, p, a, init, first);
      assert (a + b)[..|a + b| - 1] == a + init;
      assert (a + b)[|a + b| - 1] == b[|b| - 1];
    }
  }
}
