/** Day four's worked example: the 27 draws and the three boards of the
    puzzle statement.  The third board is the first to win, on the draw 24,
    with score 4512; the second board is the last to win, on the draw 13,
    with score 1924. */
module DayFourExample {
  import opened Results
  import opened DayFour
  import opened DayFourInput
  import opened DayFourText

  // ---------------------------------------------------------------------------
  // Reading a board after some draws
  // ---------------------------------------------------------------------------

  /** A board whose slots hold `numbers`, row by row, all unmarked. */
  function BoardOf(numbers: seq<U8>): (g: Grid)
    requires |numbers| == 25
    ensures forall i :: 0 <= i < 25 ==> g[i] == NewUnmarked(numbers[i])
  {
    seq(25, i requires 0 <= i < 25 => NewUnmarked(numbers[i]))
  }

  /** The numbers drawn so far. */
  function Drawn(draws: seq<U8>): set<U8> {
    set x | x in draws
  }

  /** The board with every slot whose number is in `drawn` marked. */
  function MarkedBy(g: Grid, drawn: set<U8>): Grid {
    seq(25, i requires 0 <= i < 25 => g[i].(marked := g[i].marked || g[i].number in drawn))
  }

  /** After a sequence of draws a board is its start with the drawn numbers marked. */
  lemma PlayMarkedBy(grids: seq<Grid>, draws: seq<U8>, b: nat)
    requires b < |grids|
    ensures Play(grids, draws)[b] == MarkedBy(grids[b], Drawn(draws))
  {
    forall i | 0 <= i < 25
      ensures Play(grids, draws)[b][i] == MarkedBy(grids[b], Drawn(draws))[i]
    {
      PlayMarks(grids, draws, b, i);
    }
  }

  predicate RowDone(g: Grid, r: nat)
    requires r < 5
  {
    g[5 * r].marked && g[5 * r + 1].marked && g[5 * r + 2].marked && g[5 * r + 3].marked && g[5 * r + 4].marked
  }

  predicate ColumnDone(g: Grid, c: nat)
    requires c < 5
  {
    g[c].marked && g[5 + c].marked && g[10 + c].marked && g[15 + c].marked && g[20 + c].marked
  }

  /** The win condition spelt out cell by cell: one of five rows or one of
      five columns. */
  lemma WinsCells(g: Grid)
    ensures Wins(g) <==>
              || RowDone(g, 0) || RowDone(g, 1) || RowDone(g, 2) || RowDone(g, 3) || RowDone(g, 4)
              || ColumnDone(g, 0) || ColumnDone(g, 1) || ColumnDone(g, 2) || ColumnDone(g, 3) || ColumnDone(g, 4)
  {
    forall r | 0 <= r < 5
      ensures AllMarked(Row(g, r)) <==> RowDone(g, r)
    {
      assert Row(g, r)[0] == g[5 * r] && Row(g, r)[1] == g[5 * r + 1] && Row(g, r)[2] == g[5 * r + 2];
      assert Row(g, r)[3] == g[5 * r + 3] && Row(g, r)[4] == g[5 * r + 4];
    }
    forall c | 0 <= c < 5
      ensures AllMarked(Column(g, c)) <==> ColumnDone(g, c)
    {
      assert Column(g, c)[0] == g[c] && Column(g, c)[1] == g[5 + c] && Column(g, c)[2] == g[10 + c];
      assert Column(g, c)[3] == g[15 + c] && Column(g, c)[4] == g[20 + c];
    }
  }

  /** A board with a slot left unmarked in every row and every column does not win. */
  lemma NoLineDone(g: Grid)
    requires !RowDone(g, 0) && !RowDone(g, 1) && !RowDone(g, 2) && !RowDone(g, 3) && !RowDone(g, 4)
    requires !ColumnDone(g, 0) && !ColumnDone(g, 1) && !ColumnDone(g, 2) && !ColumnDone(g, 3) && !ColumnDone(g, 4)
    ensures !Wins(g)
  {
    WinsCells(g);
  }

  /** A board with a complete row wins. */
  lemma RowWins(g: Grid, r: nat)
    requires r < 5 && RowDone(g, r)
    ensures Wins(g)
  {
    WinsCells(g);
  }

  /** A board with a complete column wins. */
  lemma ColumnWins(g: Grid, c: nat)
    requires c < 5 && ColumnDone(g, c)
    ensures Wins(g)
  {
    WinsCells(g);
  }

  /** A board that wins after the draw at position e still wins after any later one. */
  lemma WinsAfterLater(grids: seq<Grid>, draws: seq<U8>, b: nat, e: nat, k: nat)
    requires b < |grids| && e <= k < |draws|
    requires WinsAfter(grids, draws, b, e)
    ensures WinsAfter(grids, draws, b, k)
  {
    var early := Play(grids, draws[..e + 1])[b];
    var late := Play(grids, draws[..k + 1])[b];
    assert draws[..e + 1] + draws[e + 1..k + 1] == draws[..k + 1];
    forall i | 0 <= i < 25
      ensures early[i].marked ==> late[i].marked
    {
      PlayMarks(grids, draws[..e + 1], b, i);
      PlayMarks(grids, draws[..k + 1], b, i);
    }
    if r :| 0 <= r < 5 && AllMarked(Row(early, r)) {
      LineStaysMarked(Row(early, r), Row(late, r));
    } else {
      var c :| 0 <= c < 5 && AllMarked(Column(early, c));
      LineStaysMarked(Column(early, c), Column(late, c));
    }
  }

  /** A board that wins after the draw at position k, and not after the draw
      before it, first wins at k. */
  lemma FirstWinAt(grids: seq<Grid>, draws: seq<U8>, b: nat, k: nat)
    requires b < |grids| && k < |draws|
    requires Wins(MarkedBy(grids[b], Drawn(draws[..k + 1])))
    requires !Wins(MarkedBy(grids[b], Drawn(draws[..k])))
    ensures FirstWin(grids, draws, b) == Some(k)
  {
    PlayMarkedBy(grids, draws[..k + 1], b);
    forall e | 0 <= e < k
      ensures !WinsAfter(grids, draws, b, e)
    {
      if WinsAfter(grids, draws, b, e) {
        WinsAfterLater(grids, draws, b, e, k - 1);
        assert draws[..k - 1 + 1] == draws[..k];
        PlayMarkedBy(grids, draws[..k], b);
        assert false;
      }
    }
    FirstWinMeans(grids, draws, b, k);
  }

  /** An unmarked slot whose number is not drawn stays unmarked. */
  lemma LeftUnmarked(g: Grid, drawn: set<U8>, i: nat, n: U8)
    requires i < 25 && g[i] == NewUnmarked(n) && n !in drawn
    ensures MarkedBy(g, drawn)[i] == NewUnmarked(n)
  {
  }

  /** A slot whose number is drawn is marked. */
  lemma MarkedAt(g: Grid, drawn: set<U8>, i: nat, n: U8)
    requires i < 25 && g[i].number == n && n in drawn
    ensures MarkedBy(g, drawn)[i] == Slot(n, true)
  {
  }

  /** What an unmarked slot adds to the score's sum. */
  function Unmarked(s: Slot): nat {
    if s.marked then 0 else s.number
  }

  lemma SumUnmarkedStep(cells: seq<Slot>, n: nat)
    requires n < |cells|
    ensures SumUnmarked(cells[..n + 1]) == SumUnmarked(cells[..n]) + Unmarked(cells[n])
  {
    assert cells[..n + 1][..n] == cells[..n];
  }

  /** The unmarked sum of row r of a board. */
  function RowUnmarked(g: Grid, r: nat): nat
    requires r < 5
  {
    Unmarked(g[5 * r]) + Unmarked(g[5 * r + 1]) + Unmarked(g[5 * r + 2]) + Unmarked(g[5 * r + 3]) + Unmarked(g[5 * r + 4])
  }

  /** The unmarked sum of a board spelt out row by row. */
  lemma SumUnmarkedRows(g: Grid)
    ensures SumUnmarked(g)
            == RowUnmarked(g, 0) + RowUnmarked(g, 1) + RowUnmarked(g, 2) + RowUnmarked(g, 3) + RowUnmarked(g, 4)
  {
    assert g[..0] == [];
    SumUnmarkedStep(g, 0); SumUnmarkedStep(g, 1); SumUnmarkedStep(g, 2); SumUnmarkedStep(g, 3);
    SumUnmarkedStep(g, 4); SumUnmarkedStep(g, 5); SumUnmarkedStep(g, 6); SumUnmarkedStep(g, 7);
    SumUnmarkedStep(g, 8); SumUnmarkedStep(g, 9); SumUnmarkedStep(g, 10); SumUnmarkedStep(g, 11);
    SumUnmarkedStep(g, 12); SumUnmarkedStep(g, 13); SumUnmarkedStep(g, 14); SumUnmarkedStep(g, 15);
    SumUnmarkedStep(g, 16); SumUnmarkedStep(g, 17); SumUnmarkedStep(g, 18); SumUnmarkedStep(g, 19);
    SumUnmarkedStep(g, 20); SumUnmarkedStep(g, 21); SumUnmarkedStep(g, 22); SumUnmarkedStep(g, 23);
    SumUnmarkedStep(g, 24);
    assert g[..25] == g;
  }

  // ---------------------------------------------------------------------------
  // The example
  // ---------------------------------------------------------------------------

  const Draws: seq<U8> :=
    [7, 4, 9, 5, 11, 17, 23, 2, 0, 14, 21, 24, 10, 16, 13, 6, 15, 25, 12, 22, 18, 20, 8, 19, 3, 26, 1]

  const BoardOne: Grid := BoardOf([22, 13, 17, 11, 0,
                                    8, 2, 23, 4, 24,
                                    21, 9, 14, 16, 7,
                                    6, 10, 3, 18, 5,
                                    1, 12, 20, 15, 19])

  const BoardTwo: Grid := BoardOf([3, 15, 0, 2, 22,
                                    9, 18, 13, 17, 5,
                                    19, 8, 7, 25, 23,
                                    20, 11, 10, 24, 4,
                                    14, 21, 16, 12, 6])

  const BoardThree: Grid := BoardOf([14, 21, 17, 24, 4,
                                      10, 16, 15, 9, 19,
                                      18, 8, 23, 26, 20,
                                      22, 11, 13, 6, 5,
                                      2, 0, 12, 3, 7])

  const Example: Input := Input(Draws, [BoardOne, BoardTwo, BoardThree])

  /** The numbers among the first 11 draws. */
  lemma DrawnEleven()
    ensures Drawn(Draws[..11]) == {7, 4, 9, 5, 11, 17, 23, 2, 0, 14, 21}
  {
    assert Draws[..11] == [7, 4, 9, 5, 11, 17, 23, 2, 0, 14, 21];
  }

  /** The numbers among the first 12 draws. */
  lemma DrawnTwelve()
    ensures Drawn(Draws[..12]) == {7, 4, 9, 5, 11, 17, 23, 2, 0, 14, 21, 24}
  {
    assert Draws[..12] == [7, 4, 9, 5, 11, 17, 23, 2, 0, 14, 21, 24];
  }

  /** The numbers among the first 13 draws. */
  lemma DrawnThirteen()
    ensures Drawn(Draws[..13]) == {7, 4, 9, 5, 11, 17, 23, 2, 0, 14, 21, 24, 10}
  {
    assert Draws[..13] == [7, 4, 9, 5, 11, 17, 23, 2, 0, 14, 21, 24, 10];
  }

  /** The numbers among the first 14 draws. */
  lemma DrawnFourteen()
    ensures Drawn(Draws[..14]) == {7, 4, 9, 5, 11, 17, 23, 2, 0, 14, 21, 24, 10, 16}
  {
    assert Draws[..14] == [7, 4, 9, 5, 11, 17, 23, 2, 0, 14, 21, 24, 10, 16];
  }

  /** The numbers among the first 15 draws. */
  lemma DrawnFifteen()
    ensures Drawn(Draws[..15]) == {7, 4, 9, 5, 11, 17, 23, 2, 0, 14, 21, 24, 10, 16, 13}
  {
    assert Draws[..15] == [7, 4, 9, 5, 11, 17, 23, 2, 0, 14, 21, 24, 10, 16, 13];
  }

  /** Before the draw 24 the third board has an unmarked slot in every line. */
  lemma BoardThreeBefore()
    ensures !Wins(MarkedBy(BoardThree, {7, 4, 9, 5, 11, 17, 23, 2, 0, 14, 21}))
  {
    var drawn: set<U8> := {7, 4, 9, 5, 11, 17, 23, 2, 0, 14, 21};
    LeftUnmarked(BoardThree, drawn, 3, 24);
    LeftUnmarked(BoardThree, drawn, 5, 10);
    LeftUnmarked(BoardThree, drawn, 6, 16);
    LeftUnmarked(BoardThree, drawn, 7, 15);
    LeftUnmarked(BoardThree, drawn, 9, 19);
    LeftUnmarked(BoardThree, drawn, 10, 18);
    LeftUnmarked(BoardThree, drawn, 15, 22);
    LeftUnmarked(BoardThree, drawn, 22, 12);
    NoLineDone(MarkedBy(BoardThree, drawn));
  }

  /** With the draw 24 the third board's top row is complete. */
  lemma BoardThreeAfter()
    ensures Wins(MarkedBy(BoardThree, {7, 4, 9, 5, 11, 17, 23, 2, 0, 14, 21, 24}))
  {
    var drawn: set<U8> := {7, 4, 9, 5, 11, 17, 23, 2, 0, 14, 21, 24};
    MarkedAt(BoardThree, drawn, 0, 14);
    MarkedAt(BoardThree, drawn, 1, 21);
    MarkedAt(BoardThree, drawn, 2, 17);
    MarkedAt(BoardThree, drawn, 3, 24);
    MarkedAt(BoardThree, drawn, 4, 4);
    RowWins(MarkedBy(BoardThree, drawn), 0);
  }

  /** Before the draw 16 the first board has an unmarked slot in every line. */
  lemma BoardOneBefore()
    ensures !Wins(MarkedBy(BoardOne, {7, 4, 9, 5, 11, 17, 23, 2, 0, 14, 21, 24, 10}))
  {
    var drawn: set<U8> := {7, 4, 9, 5, 11, 17, 23, 2, 0, 14, 21, 24, 10};
    LeftUnmarked(BoardOne, drawn, 0, 22);
    LeftUnmarked(BoardOne, drawn, 1, 13);
    LeftUnmarked(BoardOne, drawn, 5, 8);
    LeftUnmarked(BoardOne, drawn, 13, 16);
    LeftUnmarked(BoardOne, drawn, 15, 6);
    LeftUnmarked(BoardOne, drawn, 17, 3);
    LeftUnmarked(BoardOne, drawn, 20, 1);
    LeftUnmarked(BoardOne, drawn, 24, 19);
    NoLineDone(MarkedBy(BoardOne, drawn));
  }

  /** With the draw 16 the first board's middle row is complete. */
  lemma BoardOneAfter()
    ensures Wins(MarkedBy(BoardOne, {7, 4, 9, 5, 11, 17, 23, 2, 0, 14, 21, 24, 10, 16}))
  {
    var drawn: set<U8> := {7, 4, 9, 5, 11, 17, 23, 2, 0, 14, 21, 24, 10, 16};
    MarkedAt(BoardOne, drawn, 10, 21);
    MarkedAt(BoardOne, drawn, 11, 9);
    MarkedAt(BoardOne, drawn, 12, 14);
    MarkedAt(BoardOne, drawn, 13, 16);
    MarkedAt(BoardOne, drawn, 14, 7);
    RowWins(MarkedBy(BoardOne, drawn), 2);
  }

  /** Before the draw 13 the second board has an unmarked slot in every line. */
  lemma BoardTwoBefore()
    ensures !Wins(MarkedBy(BoardTwo, {7, 4, 9, 5, 11, 17, 23, 2, 0, 14, 21, 24, 10, 16}))
  {
    var drawn: set<U8> := {7, 4, 9, 5, 11, 17, 23, 2, 0, 14, 21, 24, 10, 16};
    LeftUnmarked(BoardTwo, drawn, 0, 3);
    LeftUnmarked(BoardTwo, drawn, 1, 15);
    LeftUnmarked(BoardTwo, drawn, 4, 22);
    LeftUnmarked(BoardTwo, drawn, 6, 18);
    LeftUnmarked(BoardTwo, drawn, 7, 13);
    LeftUnmarked(BoardTwo, drawn, 10, 19);
    LeftUnmarked(BoardTwo, drawn, 13, 25);
    LeftUnmarked(BoardTwo, drawn, 15, 20);
    LeftUnmarked(BoardTwo, drawn, 23, 12);
    NoLineDone(MarkedBy(BoardTwo, drawn));
  }

  /** With the draw 13 the second board's middle column is complete. */
  lemma BoardTwoAfter()
    ensures Wins(MarkedBy(BoardTwo, {7, 4, 9, 5, 11, 17, 23, 2, 0, 14, 21, 24, 10, 16, 13}))
  {
    var drawn: set<U8> := {7, 4, 9, 5, 11, 17, 23, 2, 0, 14, 21, 24, 10, 16, 13};
    MarkedAt(BoardTwo, drawn, 2, 0);
    MarkedAt(BoardTwo, drawn, 7, 13);
    MarkedAt(BoardTwo, drawn, 12, 7);
    MarkedAt(BoardTwo, drawn, 17, 10);
    MarkedAt(BoardTwo, drawn, 22, 16);
    ColumnWins(MarkedBy(BoardTwo, drawn), 2);
  }

  /** The third board first wins on the twelfth draw, 24. */
  lemma BoardThreeFirstWin()
    ensures FirstWin(Example.boards, Draws, 2) == Some(11)
  {
    DrawnEleven();
    DrawnTwelve();
    BoardThreeBefore();
    BoardThreeAfter();
    FirstWinAt(Example.boards, Draws, 2, 11);
  }

  /** The first board first wins on the fourteenth draw, 16. */
  lemma BoardOneFirstWin()
    ensures FirstWin(Example.boards, Draws, 0) == Some(13)
  {
    DrawnThirteen();
    DrawnFourteen();
    BoardOneBefore();
    BoardOneAfter();
    FirstWinAt(Example.boards, Draws, 0, 13);
  }

  /** The second board first wins on the fifteenth draw, 13. */
  lemma BoardTwoFirstWin()
    ensures FirstWin(Example.boards, Draws, 1) == Some(14)
  {
    DrawnFourteen();
    DrawnFifteen();
    BoardTwoBefore();
    BoardTwoAfter();
    FirstWinAt(Example.boards, Draws, 1, 14);
  }

  lemma BoardThreeSnapshotRow0()
    ensures RowUnmarked(MarkedBy(BoardThree, {7, 4, 9, 5, 11, 17, 23, 2, 0, 14, 21, 24}), 0) == 0
  {
    var drawn: set<U8> := {7, 4, 9, 5, 11, 17, 23, 2, 0, 14, 21, 24};
    MarkedAt(BoardThree, drawn, 0, 14);
    MarkedAt(BoardThree, drawn, 1, 21);
    MarkedAt(BoardThree, drawn, 2, 17);
    MarkedAt(BoardThree, drawn, 3, 24);
    MarkedAt(BoardThree, drawn, 4, 4);
  }

  lemma BoardThreeSnapshotRow1()
    ensures RowUnmarked(MarkedBy(BoardThree, {7, 4, 9, 5, 11, 17, 23, 2, 0, 14, 21, 24}), 1) == 60
  {
    var drawn: set<U8> := {7, 4, 9, 5, 11, 17, 23, 2, 0, 14, 21, 24};
    LeftUnmarked(BoardThree, drawn, 5, 10);
    LeftUnmarked(BoardThree, drawn, 6, 16);
    LeftUnmarked(BoardThree, drawn, 7, 15);
    MarkedAt(BoardThree, drawn, 8, 9);
    LeftUnmarked(BoardThree, drawn, 9, 19);
  }

  lemma BoardThreeSnapshotRow2()
    ensures RowUnmarked(MarkedBy(BoardThree, {7, 4, 9, 5, 11, 17, 23, 2, 0, 14, 21, 24}), 2) == 72
  {
    var drawn: set<U8> := {7, 4, 9, 5, 11, 17, 23, 2, 0, 14, 21, 24};
    LeftUnmarked(BoardThree, drawn, 10, 18);
    LeftUnmarked(BoardThree, drawn, 11, 8);
    MarkedAt(BoardThree, drawn, 12, 23);
    LeftUnmarked(BoardThree, drawn, 13, 26);
    LeftUnmarked(BoardThree, drawn, 14, 20);
  }

  lemma BoardThreeSnapshotRow3()
    ensures RowUnmarked(MarkedBy(BoardThree, {7, 4, 9, 5, 11, 17, 23, 2, 0, 14, 21, 24}), 3) == 41
  {
    var drawn: set<U8> := {7, 4, 9, 5, 11, 17, 23, 2, 0, 14, 21, 24};
    LeftUnmarked(BoardThree, drawn, 15, 22);
    MarkedAt(BoardThree, drawn, 16, 11);
    LeftUnmarked(BoardThree, drawn, 17, 13);
    LeftUnmarked(BoardThree, drawn, 18, 6);
    MarkedAt(BoardThree, drawn, 19, 5);
  }

  lemma BoardThreeSnapshotRow4()
    ensures RowUnmarked(MarkedBy(BoardThree, {7, 4, 9, 5, 11, 17, 23, 2, 0, 14, 21, 24}), 4) == 15
  {
    var drawn: set<U8> := {7, 4, 9, 5, 11, 17, 23, 2, 0, 14, 21, 24};
    MarkedAt(BoardThree, drawn, 20, 2);
    MarkedAt(BoardThree, drawn, 21, 0);
    LeftUnmarked(BoardThree, drawn, 22, 12);
    LeftUnmarked(BoardThree, drawn, 23, 3);
    MarkedAt(BoardThree, drawn, 24, 7);
  }

  /** The third board's snapshot when it wins has unmarked sum 188. */
  lemma BoardThreeSnapshot()
    ensures SumUnmarked(MarkedBy(BoardThree, {7, 4, 9, 5, 11, 17, 23, 2, 0, 14, 21, 24})) == 188
  {
    BoardThreeSnapshotRow0();
    BoardThreeSnapshotRow1();
    BoardThreeSnapshotRow2();
    BoardThreeSnapshotRow3();
    BoardThreeSnapshotRow4();
    SumUnmarkedRows(MarkedBy(BoardThree, {7, 4, 9, 5, 11, 17, 23, 2, 0, 14, 21, 24}));
  }

  lemma BoardTwoSnapshotRow0()
    ensures RowUnmarked(MarkedBy(BoardTwo, {7, 4, 9, 5, 11, 17, 23, 2, 0, 14, 21, 24, 10, 16, 13}), 0) == 40
  {
    var drawn: set<U8> := {7, 4, 9, 5, 11, 17, 23, 2, 0, 14, 21, 24, 10, 16, 13};
    LeftUnmarked(BoardTwo, drawn, 0, 3);
    LeftUnmarked(BoardTwo, drawn, 1, 15);
    MarkedAt(BoardTwo, drawn, 2, 0);
    MarkedAt(BoardTwo, drawn, 3, 2);
    LeftUnmarked(BoardTwo, drawn, 4, 22);
  }

  lemma BoardTwoSnapshotRow1()
    ensures RowUnmarked(MarkedBy(BoardTwo, {7, 4, 9, 5, 11, 17, 23, 2, 0, 14, 21, 24, 10, 16, 13}), 1) == 18
  {
    var drawn: set<U8> := {7, 4, 9, 5, 11, 17, 23, 2, 0, 14, 21, 24, 10, 16, 13};
    MarkedAt(BoardTwo, drawn, 5, 9);
    LeftUnmarked(BoardTwo, drawn, 6, 18);
    MarkedAt(BoardTwo, drawn, 7, 13);
    MarkedAt(BoardTwo, drawn, 8, 17);
    MarkedAt(BoardTwo, drawn, 9, 5);
  }

  lemma BoardTwoSnapshotRow2()
    ensures RowUnmarked(MarkedBy(BoardTwo, {7, 4, 9, 5, 11, 17, 23, 2, 0, 14, 21, 24, 10, 16, 13}), 2) == 52
  {
    var drawn: set<U8> := {7, 4, 9, 5, 11, 17, 23, 2, 0, 14, 21, 24, 10, 16, 13};
    LeftUnmarked(BoardTwo, drawn, 10, 19);
    LeftUnmarked(BoardTwo, drawn, 11, 8);
    MarkedAt(BoardTwo, drawn, 12, 7);
    LeftUnmarked(BoardTwo, drawn, 13, 25);
    MarkedAt(BoardTwo, drawn, 14, 23);
  }

  lemma BoardTwoSnapshotRow3()
    ensures RowUnmarked(MarkedBy(BoardTwo, {7, 4, 9, 5, 11, 17, 23, 2, 0, 14, 21, 24, 10, 16, 13}), 3) == 20
  {
    var drawn: set<U8> := {7, 4, 9, 5, 11, 17, 23, 2, 0, 14, 21, 24, 10, 16, 13};
    LeftUnmarked(BoardTwo, drawn, 15, 20);
    MarkedAt(BoardTwo, drawn, 16, 11);
    MarkedAt(BoardTwo, drawn, 17, 10);
    MarkedAt(BoardTwo, drawn, 18, 24);
    MarkedAt(BoardTwo, drawn, 19, 4);
  }

  lemma BoardTwoSnapshotRow4()
    ensures RowUnmarked(MarkedBy(BoardTwo, {7, 4, 9, 5, 11, 17, 23, 2, 0, 14, 21, 24, 10, 16, 13}), 4) == 18
  {
    var drawn: set<U8> := {7, 4, 9, 5, 11, 17, 23, 2, 0, 14, 21, 24, 10, 16, 13};
    MarkedAt(BoardTwo, drawn, 20, 14);
    MarkedAt(BoardTwo, drawn, 21, 21);
    MarkedAt(BoardTwo, drawn, 22, 16);
    LeftUnmarked(BoardTwo, drawn, 23, 12);
    LeftUnmarked(BoardTwo, drawn, 24, 6);
  }

  /** The second board's snapshot when it wins has unmarked sum 148. */
  lemma BoardTwoSnapshot()
    ensures SumUnmarked(MarkedBy(BoardTwo, {7, 4, 9, 5, 11, 17, 23, 2, 0, 14, 21, 24, 10, 16, 13})) == 148
  {
    BoardTwoSnapshotRow0();
    BoardTwoSnapshotRow1();
    BoardTwoSnapshotRow2();
    BoardTwoSnapshotRow3();
    BoardTwoSnapshotRow4();
    SumUnmarkedRows(MarkedBy(BoardTwo, {7, 4, 9, 5, 11, 17, 23, 2, 0, 14, 21, 24, 10, 16, 13}));
  }

  /** A board's winning score from the unmarked sum of its start with the
      draws up to its first win marked. */
  lemma ScoreOfSnapshot(grids: seq<Grid>, draws: seq<U8>, b: nat, k: nat, drawn: set<U8>, sum: nat)
    requires b < |grids| && FirstWin(grids, draws, b) == Some(k)
    requires Drawn(draws[..k + 1]) == drawn && SumUnmarked(MarkedBy(grids[b], drawn)) == sum
    ensures WinningScore(grids, draws, b) == sum * draws[k]
  {
    PlayMarkedBy(grids, draws[..k + 1], b);
  }

  /** The third board's score when it wins: 188 times 24. */
  lemma BoardThreeScore()
    ensures FirstWin(Example.boards, Draws, 2).Some? && WinningScore(Example.boards, Draws, 2) == 4512
  {
    BoardThreeFirstWin();
    DrawnTwelve();
    BoardThreeSnapshot();
    assert Example.boards[2] == BoardThree;
    ScoreOfSnapshot(Example.boards, Draws, 2, 11, {7, 4, 9, 5, 11, 17, 23, 2, 0, 14, 21, 24}, 188);
  }

  /** The second board's score when it wins: 148 times 13. */
  lemma BoardTwoScore()
    ensures FirstWin(Example.boards, Draws, 1).Some? && WinningScore(Example.boards, Draws, 1) == 1924
  {
    BoardTwoFirstWin();
    DrawnFifteen();
    BoardTwoSnapshot();
    assert Example.boards[1] == BoardTwo;
    ScoreOfSnapshot(Example.boards, Draws, 1, 14, {7, 4, 9, 5, 11, 17, 23, 2, 0, 14, 21, 24, 10, 16, 13}, 148);
  }

  /** Part one on the example scores the third board: 4512. */
  lemma PartOneExample()
    ensures FirstWinnerScore(Example) == Success(4512)
  {
    BoardOneFirstWin();
    BoardTwoFirstWin();
    BoardThreeFirstWin();
    BoardThreeScore();
    forall i | 0 <= i < |Example.boards| && FirstWin(Example.boards, Draws, i).Some?
      ensures WonNoLater(Example.boards, Draws, 2, i)
    {
      assert |Example.boards| == 3;
      if i == 0 {
        assert FirstWin(Example.boards, Draws, 0) == Some(13);
      } else if i == 1 {
        assert FirstWin(Example.boards, Draws, 1) == Some(14);
      }
    }
    FirstWinnerScoreOf(Example, 2);
  }

  /** Part two on the example scores the second board: 1924. */
  lemma PartTwoExample()
    ensures LastWinnerScore(Example) == Success(1924)
  {
    BoardOneFirstWin();
    BoardTwoFirstWin();
    BoardThreeFirstWin();
    BoardTwoScore();
    forall i | 0 <= i < |Example.boards| && FirstWin(Example.boards, Draws, i).Some?
      ensures WonNoLater(Example.boards, Draws, i, 1)
    {
      assert |Example.boards| == 3;
      if i == 0 {
        assert FirstWin(Example.boards, Draws, 0) == Some(13);
      } else if i == 2 {
        assert FirstWin(Example.boards, Draws, 2) == Some(11);
      }
    }
    LastWinnerScoreOf(Example, 1);
  }

  /** The example written out as in the puzzle, with the boards indented by
      eight spaces, parses back into the example. */
  lemma ExampleParses()
    ensures Parse(InputText(Example, "        ")) == Success(Example)
  {
    forall b | 0 <= b < |Example.boards|
      ensures Fresh(Example.boards[b])
    {
      assert b == 0 || b == 1 || b == 2;
    }
    ParseInputText(Example, "        ");
  }
}
