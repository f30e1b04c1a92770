/** Day four's input written out as text: the draws joined by commas, a blank
    line, then each board as five rows of right-aligned numbers after an
    indent, the boards separated by a line holding only the indent.  This is
    the layout of the puzzle input and of the test text, and `parse_input`
    reads it back into the same draws and boards. */
module DayFourText {
  import opened Results
  import opened Text
  import opened DayFour
  import opened DayFourInput

  // ---------------------------------------------------------------------------
  // Rendering
  // ---------------------------------------------------------------------------

  /** The gap before the number `n` in column `c`: the indent before the first
      column, one space between columns, and one more space before a
      one-digit number so that the columns line up. */
  function Gap(indent: string, c: nat, n: U8): string {
    (if c == 0 then indent else " ") + (if n < 10 then " " else "")
  }

  lemma GapSpaces(indent: string, c: nat, n: U8)
    requires Spaces(indent)
    ensures Spaces(Gap(indent, c, n)) && AllWhitespace(Gap(indent, c, n))
    ensures c > 0 ==> Gap(indent, c, n) != []
  {
  }

  lemma RowGapsSpaces(g: Grid, r: nat, indent: string)
    requires r < 5 && Spaces(indent)
    ensures forall c :: 0 <= c < 5 ==> Spaces(RowGaps(g, r, indent)[c]) && AllWhitespace(RowGaps(g, r, indent)[c])
    ensures forall c :: 1 <= c < 5 ==> RowGaps(g, r, indent)[c] != []
  {
    forall c | 0 <= c < 5
      ensures Spaces(RowGaps(g, r, indent)[c]) && AllWhitespace(RowGaps(g, r, indent)[c])
      ensures c > 0 ==> RowGaps(g, r, indent)[c] != []
    {
      GapSpaces(indent, c, g[5 * r + c].number);
    }
  }

  function RowGaps(g: Grid, r: nat, indent: string): (gaps: seq<string>)
    requires r < 5
    ensures |gaps| == 5
  {
    seq(5, c requires 0 <= c < 5 => Gap(indent, c, g[5 * r + c].number))
  }

  /** The numbers of row r in decimal. */
  function RowTokens(g: Grid, r: nat): (tokens: seq<string>)
    requires r < 5
    ensures |tokens| == 5
    ensures forall c :: 0 <= c < 5 ==> tokens[c] != [] && NoWhitespace(tokens[c])
  {
    var tokens := seq(5, c requires 0 <= c < 5 => Show(g[5 * r + c].number, 10));
    assert forall c :: 0 <= c < 5 ==> tokens[c] == Show(g[5 * r + c].number, 10);
    tokens
  }

  function RowText(g: Grid, r: nat, indent: string): string
    requires r < 5
  {
    Laid(RowGaps(g, r, indent), RowTokens(g, r))
  }

  function BoardText(g: Grid, indent: string): (lines: seq<string>)
    ensures |lines| == 5
  {
    seq(5, r requires 0 <= r < 5 => RowText(g, r, indent))
  }

  /** The lines of the boards, a line holding only the indent between two boards. */
  function BoardsText(boards: seq<Grid>, indent: string): seq<string> {
    if boards == [] then []
    else if |boards| == 1 then BoardText(boards[0], indent)
    else BoardsText(boards[..|boards| - 1], indent) + [indent] + BoardText(boards[|boards| - 1], indent)
  }

  function DrawsText(numbers: seq<U8>): string
    requires |numbers| >= 1
  {
    Join(seq(|numbers|, i requires 0 <= i < |numbers| => Show(numbers[i], 10)), ',')
  }

  /** The whole input: the draws, a blank line, the boards. */
  function InputText(input: Input, indent: string): string
    requires |input.numbers| >= 1
  {
    Join([DrawsText(input.numbers), ""] + BoardsText(input.boards, indent), '\n')
  }

  /** An indent made of spaces. */
  predicate Spaces(indent: string) {
    forall i :: 0 <= i < |indent| ==> indent[i] == ' '
  }

  /** A board as parsing produces it: every slot unmarked. */
  predicate Fresh(g: Grid) {
    forall i :: 0 <= i < 25 ==> !g[i].marked
  }

  // ---------------------------------------------------------------------------
  // Reading one row
  // ---------------------------------------------------------------------------

  /** A row, trimmed and split at whitespace, gives back its numbers in decimal. */
  lemma RowTokensRead(g: Grid, r: nat, indent: string)
    requires r < 5 && Spaces(indent)
    ensures Trim(RowText(g, r, indent)) != []
    ensures SplitWhitespace(Trim(RowText(g, r, indent))) == RowTokens(g, r)
  {
    var gaps := RowGaps(g, r, indent);
    var tokens := RowTokens(g, r);
    var trimmed := gaps[0 := []];
    RowGapsSpaces(g, r, indent);
    TrimLaid(gaps, tokens);
    LaidLast(trimmed, tokens);
    SplitWhitespaceLaid(trimmed, tokens);
  }

  /** The board `w` with its first k rows taken from `g`. */
  function Copied(w: Grid, g: Grid, k: nat): (h: Grid)
    ensures forall i :: 0 <= i < 25 ==> h[i] == if i < 5 * k then g[i] else w[i]
  {
    seq(25, i requires 0 <= i < 25 => if i < 5 * k then g[i] else w[i])
  }

  /** Filling row r from the row's own numbers copies that row of a fresh board. */
  lemma RowFilled(w: Grid, g: Grid, r: nat)
    requires r < 5 && Fresh(g)
    ensures FillRow(Copied(w, g, r), r, RowTokens(g, r)) == Success(Copied(w, g, r + 1))
  {
    var tokens := RowTokens(g, r);
    forall c | 0 <= c < 5
      ensures Number(tokens[c]) == Some(g[5 * r + c].number)
    {
      ParseShow(g[5 * r + c].number, 10, 255);
    }
    var before := Copied(w, g, r);
    FillRowSpec(before, r, tokens);
    assert FillRow(before, r, tokens).Success?;
    var filled := FillRow(before, r, tokens).value;
    forall i | 0 <= i < 25
      ensures filled[i] == Copied(w, g, r + 1)[i]
    {
      if 5 * r <= i < 5 * r + 5 {
        assert Number(tokens[i - 5 * r]) == Some(g[i].number);
      }
    }
    assert filled == Copied(w, g, r + 1);
  }

  /** Row r of a fresh board read into a working board whose first r rows
      are already that board's. */
  lemma RowRead(p: Parser, index: nat, g: Grid, r: nat, indent: string, w: Grid)
    requires 2 <= index && r < 5 && Spaces(indent) && Fresh(g)
    requires p.rows == r && p.working == Copied(w, g, r)
    ensures ParseLine(p, index, RowText(g, r, indent))
              == Success(Parser(p.numbers, r + 1, Copied(w, g, r + 1),
                                if r + 1 == 5 then p.boards + [Copied(w, g, r + 1)] else p.boards))
  {
    var tokens := RowTokens(g, r);
    var raw := RowText(g, r, indent);
    RowTokensRead(g, r, indent);
    RowFilled(w, g, r);
    RowLineRead(p, index, raw, tokens);
    assert ParseLine(p, index, raw) == ReadRow(p, tokens);
    assert FillRow(Copied(w, g, r), r, tokens) == Success(Copied(w, g, r + 1));
    assert FillRow(p.working, p.rows, tokens) == Success(Copied(w, g, r + 1));
    RowReadFilled(p, tokens, Copied(w, g, r + 1));
    assert ReadRow(p, tokens) == Success(Parser(p.numbers, r + 1, Copied(w, g, r + 1),
                                if r + 1 == 5 then p.boards + [Copied(w, g, r + 1)] else p.boards));
  }

  /** A line of a board that is not blank is a row, read from its tokens. */
  lemma RowLineRead(p: Parser, index: nat, raw: string, tokens: seq<string>)
    requires 2 <= index && Trim(raw) != [] && SplitWhitespace(Trim(raw)) == tokens
    ensures ParseLine(p, index, raw) == ReadRow(p, tokens)
  {
    assert ParseLine(p, index, raw) == ReadBoardLine(p, Trim(raw));
  }

  // ---------------------------------------------------------------------------
  // Reading boards
  // ---------------------------------------------------------------------------

  /** The first k rows of a fresh board read into the working board. */
  lemma {:induction false} BoardRowsRead(numbers: seq<U8>, w: Grid, done: seq<Grid>, g: Grid, indent: string, first: nat, k: nat)
    requires 2 <= first && k <= 5 && Spaces(indent) && Fresh(g)
    ensures Fold(ParseLine, Parser(numbers, 0, w, done), BoardText(g, indent)[..k], first)
              == Success(Parser(numbers, k, Copied(w, g, k), if k == 5 then done + [Copied(w, g, 5)] else done))
  {
    var lines := BoardText(g, indent);
    if k == 0 {
      assert Copied(w, g, 0) == w;
    } else {
      BoardRowsRead(numbers, w, done, g, indent, first, k - 1);
      FoldStep(ParseLine, Parser(numbers, 0, w, done), lines, first, k - 1);
      RowRead(Parser(numbers, k - 1, Copied(w, g, k - 1), done), first + k - 1, g, k - 1, indent, w);
    }
  }

  /** Five rows of a fresh board complete it: the working board is then a
      copy of it and is kept. */
  lemma BoardRead(numbers: seq<U8>, w: Grid, done: seq<Grid>, g: Grid, indent: string, first: nat)
    requires 2 <= first && Spaces(indent) && Fresh(g)
    ensures Fold(ParseLine, Parser(numbers, 0, w, done), BoardText(g, indent), first)
              == Success(Parser(numbers, 5, g, done + [g]))
  {
    BoardRowsRead(numbers, w, done, g, indent, first, 5);
    assert BoardText(g, indent)[..5] == BoardText(g, indent);
    assert Copied(w, g, 5) == g;
  }

  /** The separator line between two boards resets the row count. */
  lemma SeparatorRead(p: Parser, index: nat, indent: string)
    requires 2 <= index && p.rows == 5 && Spaces(indent)
    ensures ParseLine(p, index, indent) == Success(p.(rows := 0))
  {
    TrimWhitespace(indent);
    assert ParseLine(p, index, indent) == ReadBoardLine(p, Trim(indent));
  }

  /** The separator line as the one line read. */
  lemma SeparatorFold(p: Parser, index: nat, indent: string)
    requires 2 <= index && p.rows == 5 && Spaces(indent)
    ensures Fold(ParseLine, p, [indent], index) == Success(Parser(p.numbers, 0, p.working, p.boards))
  {
    SeparatorRead(p, index, indent);
    FoldOne(ParseLine, p, indent, index);
  }

  /** A line reader that reads every fresh board written out, and the
      separator line after a complete board, as `parse_input` does. */
  ghost predicate ReadsBoards(step: Step, numbers: seq<U8>, indent: string) {
    && (forall w, done, g, index :: 2 <= index && Fresh(g) ==>
          Fold(step, Parser(numbers, 0, w, done), BoardText(g, indent), index) == Success(Parser(numbers, 5, g, done + [g])))
    && (forall w, done, index :: 2 <= index ==>
          Fold(step, Parser(numbers, 5, w, done), [indent], index) == Success(Parser(numbers, 0, w, done)))
  }

  /** The lines of `parse_input` are read that way. */
  lemma ParseLineReadsBoards(numbers: seq<U8>, indent: string)
    requires Spaces(indent)
    ensures ReadsBoards(ParseLine, numbers, indent)
  {
    forall w, done, g, index | 2 <= index && Fresh(g)
      ensures Fold(ParseLine, Parser(numbers, 0, w, done), BoardText(g, indent), index) == Success(Parser(numbers, 5, g, done + [g]))
    {
      BoardRead(numbers, w, done, g, indent, index);
    }
    forall w, done, index | 2 <= index
      ensures Fold(ParseLine, Parser(numbers, 5, w, done), [indent], index) == Success(Parser(numbers, 0, w, done))
    {
      SeparatorFold(Parser(numbers, 5, w, done), index, indent);
    }
  }

  /** The boards' lines, read after the header, give the boards; the last of
      them is left in the working board. */
  lemma {:induction false} BoardsRead(step: Step, numbers: seq<U8>, w: Grid, boards: seq<Grid>, indent: string, first: nat)
    requires 2 <= first && |boards| >= 1 && ReadsBoards(step, numbers, indent)
    requires forall b :: 0 <= b < |boards| ==> Fresh(boards[b])
    ensures Fold(step, Parser(numbers, 0, w, []), BoardsText(boards, indent), first)
              == Success(Parser(numbers, 5, boards[|boards| - 1], boards))
  {
    var n := |boards|;
    if n == 1 {
      assert Fold(step, Parser(numbers, 0, w, []), BoardText(boards[0], indent), first)
               == Success(Parser(numbers, 5, boards[0], [] + [boards[0]]));
      assert [] + [boards[0]] == boards;
    } else {
      BoardsRead(step, numbers, w, boards[..n - 1], indent, first);
      LastBoardRead(step, numbers, w, boards, indent, first);
    }
  }

  /** The inductive step of `BoardsRead`: one more board after those read. */
  lemma LastBoardRead(step: Step, numbers: seq<U8>, w: Grid, boards: seq<Grid>, indent: string, first: nat)
    requires 2 <= first && |boards| >= 2 && ReadsBoards(step, numbers, indent) && Fresh(boards[|boards| - 1])
    requires var init := boards[..|boards| - 1];
             Fold(step, Parser(numbers, 0, w, []), BoardsText(init, indent), first)
               == Success(Parser(numbers, 5, init[|init| - 1], init))
    ensures Fold(step, Parser(numbers, 0, w, []), BoardsText(boards, indent), first)
              == Success(Parser(numbers, 5, boards[|boards| - 1], boards))
  {
    var n := |boards|;
    var init := boards[..n - 1];
    var last := boards[n - 1];
    var before := BoardsText(init, indent);
    var after := [indent] + BoardText(last, indent);
    var q := Parser(numbers, 5, init[n - 2], init);
    NextBoardRead(step, q, last, indent, first + |before|);
    BoardsTextSplit(boards, indent);
    FoldJoined(step, Parser(numbers, 0, w, []), before, after, first, first + |before|, q, Parser(numbers, 5, last, boards));
  }

  /** The lines of several boards: those of all but the last, then the
      separator, then the last board's. */
  lemma BoardsTextSplit(boards: seq<Grid>, indent: string)
    requires |boards| >= 2
    ensures boards[..|boards| - 1] + [boards[|boards| - 1]] == boards
    ensures BoardsText(boards, indent)
              == BoardsText(boards[..|boards| - 1], indent) + ([indent] + BoardText(boards[|boards| - 1], indent))
  {
  }

  /** After a complete board, the separator line and the next board. */
  lemma NextBoardRead(step: Step, q: Parser, g: Grid, indent: string, index: nat)
    requires 2 <= index && q.rows == 5 && Fresh(g) && ReadsBoards(step, q.numbers, indent)
    ensures Fold(step, q, [indent] + BoardText(g, indent), index)
              == Success(Parser(q.numbers, 5, g, q.boards + [g]))
  {
    var reset := Parser(q.numbers, 0, q.working, q.boards);
    assert Fold(step, Parser(q.numbers, 5, q.working, q.boards), [indent], index) == Success(reset);
    assert Fold(step, reset, BoardText(g, indent), index + 1) == Success(Parser(q.numbers, 5, g, q.boards + [g]));
    FoldJoined(step, q, [indent], BoardText(g, indent), index, index + 1, reset, Parser(q.numbers, 5, g, q.boards + [g]));
  }

  // ---------------------------------------------------------------------------
  // Reading the header
  // ---------------------------------------------------------------------------

  /** The draws line reads back as the draws. */
  lemma DrawsRead(numbers: seq<U8>)
    requires |numbers| >= 1
    ensures NoWhitespace(DrawsText(numbers))
    ensures ParseDraws(DrawsText(numbers)) == Success(numbers)
  {
    var shown := seq(|numbers|, i requires 0 <= i < |numbers| => Show(numbers[i], 10));
    assert forall i :: 0 <= i < |shown| ==> NoWhitespace(shown[i]) && ',' !in shown[i];
    JoinNoWhitespace(shown, ',');
    SplitJoin(shown, ',');
    forall i | 0 <= i < |numbers|
      ensures Number(shown[i]) == Some(numbers[i])
    {
      ParseShow(numbers[i], 10, 255);
    }
    var r := ParseDraws(DrawsText(numbers));
    assert r.value == numbers;
  }

  /** The draws line, at the head of the input, sets the draws. */
  lemma DrawsLineRead(p: Parser, numbers: seq<U8>)
    requires |numbers| >= 1
    ensures ParseLine(p, 0, DrawsText(numbers)) == Success(p.(numbers := numbers))
  {
    DrawsRead(numbers);
    TrimNoWhitespace(DrawsText(numbers));
    assert ParseLine(p, 0, DrawsText(numbers)) == ReadDraws(p, DrawsText(numbers));
  }

  /** The draws line and the line after it. */
  lemma HeaderRead(numbers: seq<U8>)
    requires |numbers| >= 1
    ensures Fold(ParseLine, Start, [DrawsText(numbers), ""], 0) == Success(Parser(numbers, 0, BlankGrid(), []))
  {
    DrawsLineRead(Start, numbers);
    HeaderFold(DrawsText(numbers), Parser(numbers, 0, BlankGrid(), []));
  }

  /** A first line that sets the draws, then the skipped line. */
  lemma HeaderFold(draws: string, q: Parser)
    requires ParseLine(Start, 0, draws) == Success(q)
    ensures Fold(ParseLine, Start, [draws, ""], 0) == Success(q)
  {
    var lines := [draws, ""];
    assert lines[..1] == [draws];
    FoldOne(ParseLine, Start, draws, 0);
    FoldStep(ParseLine, Start, lines, 0, 1);
    assert lines[..2] == lines;
  }

  // ---------------------------------------------------------------------------
  // Lines
  // ---------------------------------------------------------------------------

  /** A line without a line break or a carriage return. */
  predicate Plain(line: string) {
    '\n' !in line && '\r' !in line
  }

  lemma RowPlain(g: Grid, r: nat, indent: string)
    requires r < 5 && Spaces(indent)
    ensures Plain(RowText(g, r, indent)) && RowText(g, r, indent) != []
  {
    var gaps := RowGaps(g, r, indent);
    var tokens := RowTokens(g, r);
    RowGapsSpaces(g, r, indent);
    forall c | 0 <= c < 5
      ensures '\n' !in gaps[c] && '\n' !in tokens[c] && '\r' !in gaps[c] && '\r' !in tokens[c]
    {
      assert forall i :: 0 <= i < |tokens[c]| ==> !IsWhitespace(tokens[c][i]);
      assert forall i :: 0 <= i < |gaps[c]| ==> gaps[c][i] == ' ';
    }
    LaidAvoids(gaps, tokens, '\n');
    LaidAvoids(gaps, tokens, '\r');
    LaidLast(gaps, tokens);
  }

  lemma {:induction false} BoardsPlain(boards: seq<Grid>, indent: string)
    requires Spaces(indent)
    ensures forall i :: 0 <= i < |BoardsText(boards, indent)| ==> Plain(BoardsText(boards, indent)[i])
    ensures |boards| >= 1 ==> |BoardsText(boards, indent)| >= 1
    ensures |boards| >= 1 ==> var lines := BoardsText(boards, indent); lines[|lines| - 1] != []
  {
    var n := |boards|;
    if n >= 1 {
      var last := BoardText(boards[n - 1], indent);
      forall r | 0 <= r < 5
        ensures Plain(last[r]) && last[r] != []
      {
        RowPlain(boards[n - 1], r, indent);
      }
      if n > 1 {
        BoardsPlain(boards[..n - 1], indent);
      }
    }
  }

  /** The draws line and the blank line keep the lines plain. */
  lemma HeaderPlain(draws: string, boards: seq<string>)
    requires Plain(draws)
    requires forall i :: 0 <= i < |boards| ==> Plain(boards[i])
    ensures var lines := [draws, ""] + boards;
      forall i :: 0 <= i < |lines| ==> Plain(lines[i])
  {
    var lines := [draws, ""] + boards;
    forall i | 2 <= i < |lines|
      ensures Plain(lines[i])
    {
      assert lines[i] == boards[i - 2];
    }
  }

  /** The text is cut back into its lines. */
  lemma InputLines(input: Input, indent: string)
    requires |input.numbers| >= 1 && |input.boards| >= 1 && Spaces(indent)
    ensures Lines(InputText(input, indent)) == [DrawsText(input.numbers), ""] + BoardsText(input.boards, indent)
  {
    var draws := DrawsText(input.numbers);
    var boards := BoardsText(input.boards, indent);
    var lines := [draws, ""] + boards;
    DrawsRead(input.numbers);
    BoardsPlain(input.boards, indent);
    assert Plain(draws) by {
      assert forall i :: 0 <= i < |draws| ==> !IsWhitespace(draws[i]);
    }
    HeaderPlain(draws, boards);
    assert lines[|lines| - 1] == boards[|boards| - 1];
    PlainLinesJoin(lines);
  }

  /** Plain lines, the last of them not empty, are cut back out of their join. */
  lemma PlainLinesJoin(lines: seq<string>)
    requires |lines| >= 1 && lines[|lines| - 1] != []
    requires forall i :: 0 <= i < |lines| ==> Plain(lines[i])
    ensures Lines(Join(lines, '\n')) == lines
  {
    forall i | 0 <= i < |lines| - 1
      ensures lines[i] == [] || lines[i][|lines[i]| - 1] != '\r'
    {
      assert Plain(lines[i]);
    }
    LinesJoin(lines);
  }

  // ---------------------------------------------------------------------------
  // The round trip
  // ---------------------------------------------------------------------------

  /** `parse_input` reads the written-out input back: the draws, and the
      boards in order, as long as there is a draw and a board and no slot is
      marked. */
  lemma ParseInputText(input: Input, indent: string)
    requires |input.numbers| >= 1 && |input.boards| >= 1 && Spaces(indent)
    requires forall b :: 0 <= b < |input.boards| ==> Fresh(input.boards[b])
    ensures Parse(InputText(input, indent)) == Success(input)
  {
    InputLines(input, indent);
    InputFolded(input, indent);
    ParseFolded(InputText(input, indent), Parser(input.numbers, 5, input.boards[|input.boards| - 1], input.boards));
  }

  /** The header and then the boards, read line by line. */
  lemma InputFolded(input: Input, indent: string)
    requires |input.numbers| >= 1 && |input.boards| >= 1 && Spaces(indent)
    requires forall b :: 0 <= b < |input.boards| ==> Fresh(input.boards[b])
    ensures Fold(ParseLine, Start, [DrawsText(input.numbers), ""] + BoardsText(input.boards, indent), 0)
              == Success(Parser(input.numbers, 5, input.boards[|input.boards| - 1], input.boards))
  {
    var header := [DrawsText(input.numbers), ""];
    var q := Parser(input.numbers, 0, BlankGrid(), []);
    var r := Parser(input.numbers, 5, input.boards[|input.boards| - 1], input.boards);
    var body := BoardsText(input.boards, indent);
    HeaderRead(input.numbers);
    ParseLineReadsBoards(input.numbers, indent);
    BoardsRead(ParseLine, input.numbers, BlankGrid(), input.boards, indent, 2);
    FoldJoined(ParseLine, Start, header, body, 0, 2, q, r);
  }

  /** Text whose lines read to a state parses to that state's draws and boards. */
  lemma ParseFolded(raw: string, r: Parser)
    requires Fold(ParseLine, Start, Lines(raw), 0) == Success(r)
    ensures Parse(raw) == Success(Input(r.numbers, r.boards))
  {
  }
}
