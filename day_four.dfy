/** Day four: giant squid bingo.  The input is a line of comma-separated draws
    followed by 5x5 boards; the draws are played in order against every board,
    each board is recorded the first time it completes a row or a column, and
    a board's score is the sum of its unmarked numbers times the winning draw.

    A board is an `ndarray::Array2` in the source; here it is a buffer of 25
    slots in row-major order, the cell in row r and column c at 5 * r + c,
    which is the layout `Array2` itself uses. */
module DayFour {
  import opened Results
  import opened Text

  /** The values of a Rust `u8`. */
  type U8 = n: nat | n < 0x100

  datatype Error =
    | BadNumber          // a draw or a board number that is not a u8
    | BlankLineInBoard   // a blank line before the current board has five rows
    | TooManyRows        // a sixth row written into the working board
    | TooManyColumns     // a sixth number in a row
    | NoWinner           // no board ever wins, so there is no first or last winner

  datatype Slot = Slot(number: U8, marked: bool)

  /** `BingoSlot::new_unmarked_with_number`. */
  function NewUnmarked(number: U8): (s: Slot)
    ensures s.number == number && !s.marked
  {
    Slot(number, false)
  }

  /** `BingoSlot::default()`: number 0, unmarked. */
  const Blank: Slot := Slot(0, false)

  /** The contents of one board, row-major. */
  type Grid = g: seq<Slot> | |g| == 25 witness seq(25, _ => Blank)

  /** Row r of a board, left to right (`Array2::rows`). */
  function Row(g: Grid, r: nat): (row: seq<Slot>)
    requires r < 5
    ensures |row| == 5 && forall c :: 0 <= c < 5 ==> row[c] == g[5 * r + c]
  {
    seq(5, c requires 0 <= c < 5 => g[5 * r + c])
  }

  /** Column c of a board, top to bottom (`Array2::columns`). */
  function Column(g: Grid, c: nat): (column: seq<Slot>)
    requires c < 5
    ensures |column| == 5 && forall r :: 0 <= r < 5 ==> column[r] == g[5 * r + c]
  {
    seq(5, r requires 0 <= r < 5 => g[5 * r + c])
  }

  predicate AllMarked(cells: seq<Slot>) {
    forall i :: 0 <= i < |cells| ==> cells[i].marked
  }

  /** A board wins when some row or some column is marked throughout. */
  predicate Wins(g: Grid) {
    || (exists r :: 0 <= r < 5 && AllMarked(Row(g, r)))
    || (exists c :: 0 <= c < 5 && AllMarked(Column(g, c)))
  }

  // ---------------------------------------------------------------------------
  // is_win
  // ---------------------------------------------------------------------------

  /** The number of marked slots among `cells`. */
  function CountMarked(cells: seq<Slot>): nat {
    if cells == [] then 0
    else CountMarked(cells[..|cells| - 1]) + (if cells[|cells| - 1].marked then 1 else 0)
  }

  lemma CountMarkedStep(cells: seq<Slot>, n: nat)
    requires n < |cells|
    ensures CountMarked(cells[..n + 1]) == CountMarked(cells[..n]) + (if cells[n].marked then 1 else 0)
  {
    assert cells[..n + 1][..n] == cells[..n];
  }

  /** All cells are marked exactly when the count of marked cells reaches their number. */
  lemma {:induction false} CountMarkedAll(cells: seq<Slot>)
    ensures CountMarked(cells) <= |cells|
    ensures CountMarked(cells) == |cells| <==> AllMarked(cells)
  {
    if cells != [] {
      var init := cells[..|cells| - 1];
      CountMarkedAll(init);
      if AllMarked(cells) {
        assert AllMarked(init);
      }
    }
  }

  /** `is_win`: rows first, then columns, with one running counter of marked
      slots that is reset after every line that is not complete. */
  method IsWin(board: array<Slot>) returns (winning: bool)
    requires board.Length == 25
    ensures winning == Wins(board[..])
  {
    ghost var g: Grid := board[..];
    var marked := 0;
    winning := false;
    for r := 0 to 5
      invariant winning ==> Wins(g)
      invariant !winning ==> marked == 0 && forall i :: 0 <= i < r ==> !AllMarked(Row(g, i))
    {
      for c := 0 to 5
        invariant marked == CountMarked(Row(g, r)[..c])
      {
        CountMarkedStep(Row(g, r), c);
        if board[5 * r + c].marked {
          marked := marked + 1;
        }
      }
      assert Row(g, r)[..5] == Row(g, r);
      CountMarkedAll(Row(g, r));
      if marked == 5 {
        winning := true;
        break;
      } else {
        marked := 0;
      }
    }
    for c := 0 to 5
      invariant winning ==> Wins(g)
      invariant !winning ==> marked == 0 && forall i :: 0 <= i < c ==> !AllMarked(Column(g, i))
      invariant !winning ==> forall i :: 0 <= i < 5 ==> !AllMarked(Row(g, i))
    {
      ghost var carried := marked;
      for r := 0 to 5
        invariant marked == carried + CountMarked(Column(g, c)[..r])
      {
        CountMarkedStep(Column(g, c), r);
        if board[5 * r + c].marked {
          marked := marked + 1;
        }
      }
      assert Column(g, c)[..5] == Column(g, c);
      CountMarkedAll(Column(g, c));
      if marked == 5 {
        winning := true;
        break;
      } else {
        marked := 0;
      }
    }
  }

  // ---------------------------------------------------------------------------
  // play_game
  // ---------------------------------------------------------------------------

  /** A board after a draw: the slots holding the draw are marked. */
  function Mark(g: Grid, draw: U8): Grid {
    seq(25, i requires 0 <= i < 25 => if g[i].number == draw then g[i].(marked := true) else g[i])
  }

  /** Every board after a draw. */
  function MarkAll(grids: seq<Grid>, draw: U8): (marked: seq<Grid>)
    ensures |marked| == |grids|
  {
    seq(|grids|, i requires 0 <= i < |grids| => Mark(grids[i], draw))
  }

  /** The boards after all of `draws`, in order. */
  function Play(grids: seq<Grid>, draws: seq<U8>): (played: seq<Grid>)
    ensures |played| == |grids|
  {
    if draws == [] then grids else MarkAll(Play(grids, draws[..|draws| - 1]), draws[|draws| - 1])
  }

  /** An entry of the winners list: the board's index, its snapshot at the
      moment it first won, and the draw that made it win. */
  datatype Winner = Winner(index: nat, board: Grid, draw: U8)

  predicate Recorded(winners: seq<Winner>, i: nat) {
    exists k :: 0 <= k < |winners| && winners[k].index == i
  }

  /** The scan after a draw over the first `n` boards: each winning board not
      yet recorded is appended, in board order. */
  function Record(winners: seq<Winner>, grids: seq<Grid>, draw: U8, n: nat): seq<Winner>
    requires n <= |grids|
  {
    if n == 0 then winners
    else
      var scanned := Record(winners, grids, draw, n - 1);
      if Wins(grids[n - 1]) && !Recorded(scanned, n - 1)
      then scanned + [Winner(n - 1, grids[n - 1], draw)]
      else scanned
  }

  /** The winners list after all of `draws`. */
  function Winners(grids: seq<Grid>, draws: seq<U8>): seq<Winner> {
    if draws == [] then []
    else Record(Winners(grids, draws[..|draws| - 1]), Play(grids, draws), draws[|draws| - 1], |grids|)
  }

  /** Separate buffers of 25 slots each. */
  predicate Boards(boards: seq<array<Slot>>) {
    && (forall i :: 0 <= i < |boards| ==> boards[i].Length == 25)
    && (forall i, j :: 0 <= i < j < |boards| ==> boards[i] != boards[j])
  }

  function Grids(boards: seq<array<Slot>>): (grids: seq<Grid>)
    requires Boards(boards)
    reads set i | 0 <= i < |boards| :: boards[i]
    ensures |grids| == |boards|
    ensures forall i :: 0 <= i < |boards| ==> grids[i] == boards[i][..]
  {
    seq(|boards|, i requires 0 <= i < |boards| reads set j | 0 <= j < |boards| :: boards[j] => boards[i][..])
  }

  /** Marks the slots of one board that hold the draw. */
  method MarkBoard(board: array<Slot>, draw: U8)
    requires board.Length == 25
    modifies board
    ensures board[..] == Mark(old(board[..]), draw)
  {
    for i := 0 to 25
      invariant forall j :: 0 <= j < i ==> board[j] == Mark(old(board[..]), draw)[j]
      invariant forall j :: i <= j < 25 ==> board[j] == old(board[j])
    {
      if board[i].number == draw {
        board[i] := board[i].(marked := true);
      }
    }
  }

  /** The first half of a round of `play_game`: the draw marked on every board in place. */
  method MarkBoards(boards: seq<array<Slot>>, draw: U8)
    requires Boards(boards)
    modifies set i | 0 <= i < |boards| :: boards[i]
    ensures Grids(boards) == MarkAll(old(Grids(boards)), draw)
  {
    ghost var before := Grids(boards);
    for b := 0 to |boards|
      invariant forall i :: 0 <= i < b ==> boards[i][..] == Mark(before[i], draw)
      invariant forall i :: b <= i < |boards| ==> boards[i][..] == before[i]
    {
      MarkBoard(boards[b], draw);
    }
  }

  /** The second half of a round: every board checked in order, and a winning
      board not yet in the list appended with a copy of itself and the draw. */
  method RecordWinners(boards: seq<array<Slot>>, draw: U8, winners: seq<Winner>) returns (updated: seq<Winner>)
    requires Boards(boards)
    ensures updated == Record(winners, Grids(boards), draw, |boards|)
  {
    updated := winners;
    for b := 0 to |boards|
      invariant updated == Record(winners, Grids(boards), draw, b)
    {
      var win := IsWin(boards[b]);
      if win && !(exists k | 0 <= k < |updated| :: updated[k].index == b) {
        updated := updated + [Winner(b, boards[b][..], draw)];
      }
    }
  }

  /** `play_game`: every draw is played, in order, against every board. */
  method PlayGame(numbers: seq<U8>, boards: seq<array<Slot>>) returns (winners: seq<Winner>)
    requires Boards(boards)
    modifies set i | 0 <= i < |boards| :: boards[i]
    ensures Grids(boards) == Play(old(Grids(boards)), numbers)
    ensures winners == Winners(old(Grids(boards)), numbers)
  {
    ghost var initial := Grids(boards);
    winners := [];
    for d := 0 to |numbers|
      invariant Grids(boards) == Play(initial, numbers[..d])
      invariant winners == Winners(initial, numbers[..d])
    {
      MarkBoards(boards, numbers[d]);
      assert numbers[..d + 1][..d] == numbers[..d];
      winners := RecordWinners(boards, numbers[d], winners);
    }
    assert numbers[..|numbers|] == numbers;
  }

  // ---------------------------------------------------------------------------
  // Properties of a game
  // ---------------------------------------------------------------------------

  /** A draw marks exactly the slots holding it; no number changes and no mark
      is cleared. */
  lemma MarkExactly(g: Grid, draw: U8, i: nat)
    requires i < 25
    ensures Mark(g, draw)[i].number == g[i].number
    ensures Mark(g, draw)[i].marked <==> g[i].marked || g[i].number == draw
  {
  }

  /** After a sequence of draws a slot is marked exactly when it was marked at
      the start or its number was drawn. */
  lemma {:induction false} PlayMarks(grids: seq<Grid>, draws: seq<U8>, b: nat, i: nat)
    requires b < |grids| && i < 25
    ensures Play(grids, draws)[b][i].number == grids[b][i].number
    ensures Play(grids, draws)[b][i].marked <==> grids[b][i].marked || grids[b][i].number in draws
  {
    if draws != [] {
      var earlier := draws[..|draws| - 1];
      PlayMarks(grids, earlier, b, i);
      assert draws == earlier + [draws[|draws| - 1]];
    }
  }

  /** Marks are never cleared: a slot marked after some draws stays marked
      after more draws. */
  lemma MarksMonotone(grids: seq<Grid>, draws: seq<U8>, more: seq<U8>, b: nat, i: nat)
    requires b < |grids| && i < 25
    requires Play(grids, draws)[b][i].marked
    ensures Play(grids, draws + more)[b][i].marked
  {
    PlayMarks(grids, draws, b, i);
    PlayMarks(grids, draws + more, b, i);
  }

  /** A board that has won keeps winning. */
  lemma WinsStays(g: Grid, draw: U8)
    requires Wins(g)
    ensures Wins(Mark(g, draw))
  {
    var m := Mark(g, draw);
    if r :| 0 <= r < 5 && AllMarked(Row(g, r)) {
      LineStaysMarked(Row(g, r), Row(m, r));
    } else {
      var c :| 0 <= c < 5 && AllMarked(Column(g, c));
      LineStaysMarked(Column(g, c), Column(m, c));
    }
  }

  /** A line whose slots are all marked stays marked when the draw is applied. */
  lemma LineStaysMarked(before: seq<Slot>, after: seq<Slot>)
    requires |before| == |after| && AllMarked(before)
    requires forall i :: 0 <= i < |before| ==> (after[i].marked <== before[i].marked)
    ensures AllMarked(after)
  {
  }

  /** The slot in row r and column c. */
  function Cell(g: Grid, r: nat, c: nat): Slot
    requires r < 5 && c < 5
  {
    g[5 * r + c]
  }

  /** Diagonals never count: a board marked on its main diagonal only does not win. */
  lemma DiagonalDoesNotWin(g: Grid)
    requires forall r, c :: 0 <= r < 5 && 0 <= c < 5 ==> (Cell(g, r, c).marked <==> r == c)
    ensures !Wins(g)
  {
    forall r | 0 <= r < 5
      ensures !AllMarked(Row(g, r))
    {
      var c := if r == 0 then 1 else 0;
      assert Row(g, r)[c] == Cell(g, r, c);
    }
    forall c | 0 <= c < 5
      ensures !AllMarked(Column(g, c))
    {
      var r := if c == 0 then 1 else 0;
      assert Column(g, c)[r] == Cell(g, r, c);
    }
  }

  /** The position in `draws` of the draw after which board b first wins. */
  function FirstWin(grids: seq<Grid>, draws: seq<U8>, b: nat): (k: Option<nat>)
    requires b < |grids|
    ensures k.Some? ==> k.value < |draws|
  {
    if draws == [] then None
    else
      match FirstWin(grids, draws[..|draws| - 1], b)
      case Some(k) => Some(k)
      case None => if Wins(Play(grids, draws)[b]) then Some(|draws| - 1) else None
  }

  /** The board wins after the draw at position k. */
  predicate WinsAfter(grids: seq<Grid>, draws: seq<U8>, b: nat, k: nat)
    requires b < |grids| && k < |draws|
  {
    Wins(Play(grids, draws[..k + 1])[b])
  }

  /** Whether the board wins after the draw at a position does not depend on
      the draws that follow. */
  lemma WinsAfterPrefix(grids: seq<Grid>, draws: seq<U8>, b: nat, k: nat)
    requires b < |grids| && k + 1 < |draws|
    ensures WinsAfter(grids, draws, b, k) == WinsAfter(grids, draws[..|draws| - 1], b, k)
  {
    assert draws[..|draws| - 1][..k + 1] == draws[..k + 1];
  }

  /** `FirstWin` is the earliest position after which the board wins. */
  lemma {:induction false} FirstWinMeans(grids: seq<Grid>, draws: seq<U8>, b: nat, k: nat)
    requires b < |grids|
    ensures FirstWin(grids, draws, b) == Some(k) <==>
              k < |draws| && WinsAfter(grids, draws, b, k)
              && forall e :: 0 <= e < k ==> !WinsAfter(grids, draws, b, e)
  {
    if draws != [] {
      var m := |draws| - 1;
      FirstWinMeans(grids, draws[..m], b, k);
      FirstWinNever(grids, draws[..m], b);
      assert draws[..m + 1] == draws;
      forall e | 0 <= e < m
        ensures WinsAfter(grids, draws, b, e) == WinsAfter(grids, draws[..m], b, e)
      {
        WinsAfterPrefix(grids, draws, b, e);
      }
    }
  }

  /** `FirstWin` is absent exactly when the board never wins. */
  lemma {:induction false} FirstWinNever(grids: seq<Grid>, draws: seq<U8>, b: nat)
    requires b < |grids|
    ensures FirstWin(grids, draws, b) == None <==> forall e :: 0 <= e < |draws| ==> !WinsAfter(grids, draws, b, e)
  {
    if draws != [] {
      var m := |draws| - 1;
      FirstWinNever(grids, draws[..m], b);
      assert draws[..m + 1] == draws;
      forall e | 0 <= e < m
        ensures WinsAfter(grids, draws, b, e) == WinsAfter(grids, draws[..m], b, e)
      {
        WinsAfterPrefix(grids, draws, b, e);
      }
      match FirstWin(grids, draws[..m], b)
      case Some(k) =>
        assert WinsAfter(grids, draws[..m], b, k) by {
          FirstWinMeans(grids, draws[..m], b, k);
        }
      case None =>
        assert WinsAfter(grids, draws, b, m) == Wins(Play(grids, draws)[b]);
    }
  }

  /** What one scan appends: winning boards not yet listed, in board order,
      each with its current contents and the draw. */
  lemma {:induction false} RecordAppends(winners: seq<Winner>, grids: seq<Grid>, draw: U8, n: nat)
    requires n <= |grids|
    ensures var w := Record(winners, grids, draw, n);
      && |winners| <= |w| && w[..|winners|] == winners
      && (forall j :: |winners| <= j < |w| ==>
            && w[j].index < n && w[j].board == grids[w[j].index] && w[j].draw == draw
            && Wins(grids[w[j].index]) && !Recorded(winners, w[j].index))
      && (forall j1, j2 :: |winners| <= j1 < j2 < |w| ==> w[j1].index < w[j2].index)
  {
    if n > 0 {
      RecordAppends(winners, grids, draw, n - 1);
      RecordListed(winners, grids, draw, n - 1);
      var scanned := Record(winners, grids, draw, n - 1);
      if Wins(grids[n - 1]) && !Recorded(scanned, n - 1) {
        var w := scanned + [Winner(n - 1, grids[n - 1], draw)];
        assert w[..|winners|] == scanned[..|winners|];
        assert !Recorded(winners, n - 1);
      }
    }
  }

  /** After one scan a board is listed when it was listed before or wins now. */
  lemma {:induction false} RecordListed(winners: seq<Winner>, grids: seq<Grid>, draw: U8, n: nat)
    requires n <= |grids|
    ensures forall i :: 0 <= i < n ==>
              (Recorded(Record(winners, grids, draw, n), i) <==> Recorded(winners, i) || Wins(grids[i]))
    ensures forall i :: n <= i ==> (Recorded(Record(winners, grids, draw, n), i) <==> Recorded(winners, i))
  {
    if n > 0 {
      RecordListed(winners, grids, draw, n - 1);
      var scanned := Record(winners, grids, draw, n - 1);
      if Wins(grids[n - 1]) && !Recorded(scanned, n - 1) {
        var w := scanned + [Winner(n - 1, grids[n - 1], draw)];
        forall i | 0 <= i
          ensures Recorded(w, i) <==> Recorded(scanned, i) || i == n - 1
        {
          AppendRecorded(scanned, Winner(n - 1, grids[n - 1], draw), i);
        }
      }
    }
  }

  lemma AppendRecorded(winners: seq<Winner>, x: Winner, i: nat)
    ensures Recorded(winners + [x], i) <==> Recorded(winners, i) || x.index == i
  {
    var w := winners + [x];
    if Recorded(w, i) && x.index != i {
      var k :| 0 <= k < |w| && w[k].index == i;
      assert winners[k].index == i;
    }
    if Recorded(winners, i) {
      var k :| 0 <= k < |winners| && winners[k].index == i;
      assert w[k].index == i;
    }
    if x.index == i {
      assert w[|winners|].index == i;
    }
  }

  /** Entry w is board w.index, listed with the draw after which that board
      first won and a copy of the board at that moment. */
  predicate FirstWinSnapshot(grids: seq<Grid>, draws: seq<U8>, w: Winner) {
    && w.index < |grids|
    && FirstWin(grids, draws, w.index).Some?
    && var k := FirstWin(grids, draws, w.index).value;
       w.draw == draws[k] && w.board == Play(grids, draws[..k + 1])[w.index]
  }

  /** Entry a belongs before entry b: its board won on an earlier draw, or on
      the same draw with a smaller index. */
  predicate WonBefore(grids: seq<Grid>, draws: seq<U8>, a: Winner, b: Winner)
    requires FirstWinSnapshot(grids, draws, a) && FirstWinSnapshot(grids, draws, b)
  {
    var ka := FirstWin(grids, draws, a.index).value;
    var kb := FirstWin(grids, draws, b.index).value;
    ka < kb || (ka == kb && a.index < b.index)
  }

  /** A board's first win does not move when more draws follow. */
  lemma FirstWinExtends(grids: seq<Grid>, draws: seq<U8>, b: nat)
    requires b < |grids| && draws != []
    ensures var earlier := FirstWin(grids, draws[..|draws| - 1], b);
      FirstWin(grids, draws, b)
        == if earlier.Some? then earlier
           else if Wins(Play(grids, draws)[b]) then Some(|draws| - 1) else None
  {
  }

  /** The entries of a winners list are the boards that ever win, in the
      order of their first wins. */
  ghost predicate WinnersList(grids: seq<Grid>, draws: seq<U8>, w: seq<Winner>) {
    && (forall j :: 0 <= j < |w| ==> FirstWinSnapshot(grids, draws, w[j]))
    && (forall i :: 0 <= i < |grids| ==> (Recorded(w, i) <==> FirstWin(grids, draws, i).Some?))
    && (forall j1, j2 :: 0 <= j1 < j2 < |w| ==> WonBefore(grids, draws, w[j1], w[j2]))
  }

  /** The winners list of `play_game`: it lists exactly the boards that ever
      win, each once, with the draw and the snapshot of the moment it first
      won, ordered by that moment and, on the same draw, by board index. */
  lemma {:induction false} WinnersSpec(grids: seq<Grid>, draws: seq<U8>)
    ensures WinnersList(grids, draws, Winners(grids, draws))
  {
    if draws != [] {
      var m := |draws| - 1;
      var earlier := draws[..m];
      WinnersSpec(grids, earlier);
      var before := Winners(grids, earlier);
      var played := Play(grids, draws);
      RecordAppends(before, played, draws[m], |grids|);
      RecordListed(before, played, draws[m], |grids|);
      WinnersStep(grids, draws, before, Winners(grids, draws));
    }
  }

  /** What one scan over all boards does to the list: it keeps the entries
      so far and appends the winning boards not yet listed, in board order. */
  ghost predicate Appended(before: seq<Winner>, w: seq<Winner>, played: seq<Grid>, draw: U8) {
    && |before| <= |w| && w[..|before|] == before
    && (forall j :: |before| <= j < |w| ==>
          && w[j].index < |played| && w[j].board == played[w[j].index] && w[j].draw == draw
          && Wins(played[w[j].index]) && !Recorded(before, w[j].index))
    && (forall j1, j2 :: |before| <= j1 < j2 < |w| ==> w[j1].index < w[j2].index)
    && (forall i :: 0 <= i < |played| ==> (Recorded(w, i) <==> Recorded(before, i) || Wins(played[i])))
  }

  /** One more draw keeps the list a winners list. */
  lemma WinnersStep(grids: seq<Grid>, draws: seq<U8>, before: seq<Winner>, w: seq<Winner>)
    requires draws != [] && WinnersList(grids, draws[..|draws| - 1], before)
    requires Appended(before, w, Play(grids, draws), draws[|draws| - 1])
    ensures WinnersList(grids, draws, w)
  {
    var m := |draws| - 1;
    var earlier := draws[..m];
    var played := Play(grids, draws);
    assert draws[..m + 1] == draws;
    forall i | 0 <= i < |grids|
      ensures FirstWin(grids, draws, i)
              == if FirstWin(grids, earlier, i).Some? then FirstWin(grids, earlier, i)
                 else if Wins(played[i]) then Some(m) else None
    {
      FirstWinExtends(grids, draws, i);
    }
    forall k | 0 <= k < m
      ensures draws[k] == earlier[k] && draws[..k + 1] == earlier[..k + 1]
    {
    }
    forall j | 0 <= j < |w|
      ensures FirstWinSnapshot(grids, draws, w[j])
    {
      if j < |before| {
        assert w[j] == before[j];
      }
    }
    forall j1, j2 | 0 <= j1 < j2 < |w|
      ensures WonBefore(grids, draws, w[j1], w[j2])
    {
      if j2 < |before| {
        assert w[j1] == before[j1] && w[j2] == before[j2];
      } else if j1 < |before| {
        assert w[j1] == before[j1];
      }
    }
  }

  /** No board is listed twice. */
  lemma WinnersDistinct(grids: seq<Grid>, draws: seq<U8>)
    ensures forall j1, j2 :: 0 <= j1 < j2 < |Winners(grids, draws)| ==>
              Winners(grids, draws)[j1].index != Winners(grids, draws)[j2].index
  {
    WinnersSpec(grids, draws);
  }

  // ---------------------------------------------------------------------------
  // Scores
  // ---------------------------------------------------------------------------

  /** The sum of the numbers on the unmarked slots (the fold of
      `calculate_winning_board_score`). */
  function SumUnmarked(cells: seq<Slot>): (sum: nat)
    ensures sum <= 255 * |cells|
  {
    if cells == [] then 0
    else
      var last := cells[|cells| - 1];
      SumUnmarked(cells[..|cells| - 1]) + (if last.marked then 0 else last.number)
  }

  /** The number of unmarked slots holding `number`. */
  function UnmarkedWith(cells: seq<Slot>, number: U8): nat {
    if cells == [] then 0
    else
      var last := cells[|cells| - 1];
      UnmarkedWith(cells[..|cells| - 1], number) + (if !last.marked && last.number == number then 1 else 0)
  }

  /** `calculate_winning_board_score`: the unmarked sum times the winning draw,
      which always fits the u64 it is computed in. */
  function Score(board: Grid, draw: U8): (score: nat)
    ensures score <= 25 * 255 * 255
  {
    var sum := SumUnmarked(board);
    assert sum * draw <= (25 * 255) * 255 by {
      MulBound(sum, draw, 25 * 255, 255);
    }
    sum * draw
  }

  lemma MulBound(a: nat, b: nat, x: nat, y: nat)
    requires a <= x && b <= y
    ensures a * b <= x * y
  {
    assert a * b <= x * b;
  }

  /** A draw takes its own value off the unmarked sum once for every unmarked
      slot holding it. */
  lemma {:induction false} SumUnmarkedMark(g: Grid, draw: U8, n: nat)
    requires n <= 25
    ensures SumUnmarked(Mark(g, draw)[..n]) + draw * UnmarkedWith(g[..n], draw) == SumUnmarked(g[..n])
  {
    if n > 0 {
      SumUnmarkedMark(g, draw, n - 1);
      assert Mark(g, draw)[..n][..n - 1] == Mark(g, draw)[..n - 1];
      assert g[..n][..n - 1] == g[..n - 1];
      var count := UnmarkedWith(g[..n - 1], draw);
      var hit := if !g[n - 1].marked && g[n - 1].number == draw then 1 else 0;
      assert UnmarkedWith(g[..n], draw) == count + hit;
      Distribute(draw, count, hit);
    }
  }

  lemma Distribute(a: nat, b: nat, c: nat)
    ensures a * (b + c) == a * b + a * c
  {
  }

  /** A fully marked board scores nothing. */
  lemma {:induction false} SumUnmarkedAllMarked(cells: seq<Slot>)
    requires AllMarked(cells)
    ensures SumUnmarked(cells) == 0
  {
    if cells != [] {
      SumUnmarkedAllMarked(cells[..|cells| - 1]);
    }
  }

  // ---------------------------------------------------------------------------
  // part_one and part_two
  // ---------------------------------------------------------------------------

  /** `InputNumbersAndBoards`: the draws and the boards, by value. */
  datatype Input = Input(numbers: seq<U8>, boards: seq<Grid>)

  /** The score of the first board in the winners list. */
  function FirstWinnerScore(input: Input): Result<nat, Error> {
    var w := Winners(input.boards, input.numbers);
    if w == [] then Failure(NoWinner) else Success(Score(w[0].board, w[0].draw))
  }

  /** The score of the last board in the winners list. */
  function LastWinnerScore(input: Input): Result<nat, Error> {
    var w := Winners(input.boards, input.numbers);
    if w == [] then Failure(NoWinner) else Success(Score(w[|w| - 1].board, w[|w| - 1].draw))
  }

  /** Fresh buffers holding the given boards (the `clone` the callers pass). */
  method NewBoards(grids: seq<Grid>) returns (boards: seq<array<Slot>>)
    ensures Boards(boards) && Grids(boards) == grids
    ensures forall i :: 0 <= i < |boards| ==> fresh(boards[i])
  {
    boards := [];
    for b := 0 to |grids|
      invariant |boards| == b && Boards(boards)
      invariant forall i :: 0 <= i < b ==> fresh(boards[i]) && boards[i][..] == grids[i]
    {
      var grid := grids[b];
      var board := new Slot[25](i requires 0 <= i < 25 => grid[i]);
      assert board[..] == grid;
      boards := boards + [board];
    }
  }

  /** `play_game` on an input it owns: the boards moved into buffers of
      their own, then every draw played on them. */
  method PlayInput(input: Input) returns (winners: seq<Winner>)
    ensures winners == Winners(input.boards, input.numbers)
  {
    var boards := NewBoards(input.boards);
    winners := PlayGame(input.numbers, boards);
  }

  /** `part_one`: the game played on a copy of the input, scoring the first
      board to win; no winner at all is an error. */
  method PartOne(input: Input) returns (r: Result<nat, Error>)
    ensures r == FirstWinnerScore(input)
  {
    var winners := PlayInput(input);
    if winners == [] {
      return Failure(NoWinner);
    }
    var first := winners[0];
    return Success(Score(first.board, first.draw));
  }

  /** `part_two`: the game played on a copy of the input, scoring the last
      board to win; no winner at all is an error. */
  method PartTwo(input: Input) returns (r: Result<nat, Error>)
    ensures r == LastWinnerScore(input)
  {
    var winners := PlayInput(input);
    if winners == [] {
      return Failure(NoWinner);
    }
    var last := winners[|winners| - 1];
    return Success(Score(last.board, last.draw));
  }

  /** Board a first won no later than board b, and on the same draw only with
      an index no larger. */
  predicate WonNoLater(grids: seq<Grid>, draws: seq<U8>, a: nat, b: nat)
    requires a < |grids| && b < |grids|
    requires FirstWin(grids, draws, a).Some? && FirstWin(grids, draws, b).Some?
  {
    var ka := FirstWin(grids, draws, a).value;
    var kb := FirstWin(grids, draws, b).value;
    ka < kb || (ka == kb && a <= b)
  }

  /** The score board b has at the moment it first wins. */
  function WinningScore(grids: seq<Grid>, draws: seq<U8>, b: nat): nat
    requires b < |grids| && FirstWin(grids, draws, b).Some?
  {
    var k := FirstWin(grids, draws, b).value;
    Score(Play(grids, draws[..k + 1])[b], draws[k])
  }

  /** `part_one` fails exactly when no board ever wins; otherwise it is the
      winning score of the board that wins first (the lowest index on a tie). */
  lemma FirstWinnerScoreSpec(input: Input)
    ensures FirstWinnerScore(input).Failure? <==>
              forall b :: 0 <= b < |input.boards| ==> FirstWin(input.boards, input.numbers, b).None?
    ensures FirstWinnerScore(input).Failure? ==> FirstWinnerScore(input).error == NoWinner
    ensures FirstWinnerScore(input).Success? ==>
              exists b :: 0 <= b < |input.boards| && FirstWin(input.boards, input.numbers, b).Some?
                && FirstWinnerScore(input).value == WinningScore(input.boards, input.numbers, b)
                && forall i :: 0 <= i < |input.boards| && FirstWin(input.boards, input.numbers, i).Some? ==>
                     WonNoLater(input.boards, input.numbers, b, i)
  {
    var grids, draws := input.boards, input.numbers;
    var w := Winners(grids, draws);
    WinnersSpec(grids, draws);
    FirstOfWinners(grids, draws, w);
    if w != [] {
      var b := w[0].index;
      assert FirstWinnerScore(input).value == WinningScore(grids, draws, b);
    }
  }

  /** The head of a winners list is the board that wins first. */
  lemma FirstOfWinners(grids: seq<Grid>, draws: seq<U8>, w: seq<Winner>)
    requires WinnersList(grids, draws, w)
    ensures w == [] <==> forall b :: 0 <= b < |grids| ==> FirstWin(grids, draws, b).None?
    ensures w != [] ==>
              && w[0].index < |grids| && FirstWin(grids, draws, w[0].index).Some?
              && Score(w[0].board, w[0].draw) == WinningScore(grids, draws, w[0].index)
              && forall i :: 0 <= i < |grids| && FirstWin(grids, draws, i).Some? ==>
                   WonNoLater(grids, draws, w[0].index, i)
  {
    if w == [] {
      forall b | 0 <= b < |grids|
        ensures FirstWin(grids, draws, b).None?
      {
        assert !Recorded(w, b);
      }
    } else {
      var b := w[0].index;
      assert Recorded(w, b);
      forall i | 0 <= i < |grids| && FirstWin(grids, draws, i).Some?
        ensures WonNoLater(grids, draws, b, i)
      {
        var j :| 0 <= j < |w| && w[j].index == i;
        if j > 0 {
          assert WonBefore(grids, draws, w[0], w[j]);
        }
      }
    }
  }

  /** `part_two` fails exactly when no board ever wins; otherwise it is the
      winning score of the board that wins last (the highest index on a tie). */
  lemma LastWinnerScoreSpec(input: Input)
    ensures LastWinnerScore(input).Failure? <==>
              forall b :: 0 <= b < |input.boards| ==> FirstWin(input.boards, input.numbers, b).None?
    ensures LastWinnerScore(input).Failure? ==> LastWinnerScore(input).error == NoWinner
    ensures LastWinnerScore(input).Success? ==>
              exists b :: 0 <= b < |input.boards| && FirstWin(input.boards, input.numbers, b).Some?
                && LastWinnerScore(input).value == WinningScore(input.boards, input.numbers, b)
                && forall i :: 0 <= i < |input.boards| && FirstWin(input.boards, input.numbers, i).Some? ==>
                     WonNoLater(input.boards, input.numbers, i, b)
  {
    var grids, draws := input.boards, input.numbers;
    var w := Winners(grids, draws);
    WinnersSpec(grids, draws);
    LastOfWinners(grids, draws, w);
    if w != [] {
      var b := w[|w| - 1].index;
      assert LastWinnerScore(input).value == WinningScore(grids, draws, b);
    }
  }

  /** The last entry of a winners list is the board that wins last. */
  lemma LastOfWinners(grids: seq<Grid>, draws: seq<U8>, w: seq<Winner>)
    requires WinnersList(grids, draws, w)
    ensures w == [] <==> forall b :: 0 <= b < |grids| ==> FirstWin(grids, draws, b).None?
    ensures w != [] ==>
              && w[|w| - 1].index < |grids| && FirstWin(grids, draws, w[|w| - 1].index).Some?
              && Score(w[|w| - 1].board, w[|w| - 1].draw) == WinningScore(grids, draws, w[|w| - 1].index)
              && forall i :: 0 <= i < |grids| && FirstWin(grids, draws, i).Some? ==>
                   WonNoLater(grids, draws, i, w[|w| - 1].index)
  {
    if w == [] {
      forall b | 0 <= b < |grids|
        ensures FirstWin(grids, draws, b).None?
      {
        assert !Recorded(w, b);
      }
    } else {
      var n := |w| - 1;
      var b := w[n].index;
      assert Recorded(w, b);
      forall i | 0 <= i < |grids| && FirstWin(grids, draws, i).Some?
        ensures WonNoLater(grids, draws, i, b)
      {
        var j :| 0 <= j < |w| && w[j].index == i;
        if j < n {
          assert WonBefore(grids, draws, w[j], w[n]);
        }
      }
    }
  }

  /** The board that wins no later than every other winner is the one part
      one scores. */
  lemma FirstWinnerScoreOf(input: Input, b: nat)
    requires b < |input.boards| && FirstWin(input.boards, input.numbers, b).Some?
    requires forall i :: 0 <= i < |input.boards| && FirstWin(input.boards, input.numbers, i).Some? ==>
               WonNoLater(input.boards, input.numbers, b, i)
    ensures FirstWinnerScore(input) == Success(WinningScore(input.boards, input.numbers, b))
  {
    FirstWinnerScoreSpec(input);
    var c :| 0 <= c < |input.boards| && FirstWin(input.boards, input.numbers, c).Some?
               && FirstWinnerScore(input).value == WinningScore(input.boards, input.numbers, c)
               && forall i :: 0 <= i < |input.boards| && FirstWin(input.boards, input.numbers, i).Some? ==>
                    WonNoLater(input.boards, input.numbers, c, i);
    assert WonNoLater(input.boards, input.numbers, c, b);
  }

  /** The board that wins no earlier than every other winner is the one part
      two scores. */
  lemma LastWinnerScoreOf(input: Input, b: nat)
    requires b < |input.boards| && FirstWin(input.boards, input.numbers, b).Some?
    requires forall i :: 0 <= i < |input.boards| && FirstWin(input.boards, input.numbers, i).Some? ==>
               WonNoLater(input.boards, input.numbers, i, b)
    ensures LastWinnerScore(input) == Success(WinningScore(input.boards, input.numbers, b))
  {
    LastWinnerScoreSpec(input);
    var c :| 0 <= c < |input.boards| && FirstWin(input.boards, input.numbers, c).Some?
               && LastWinnerScore(input).value == WinningScore(input.boards, input.numbers, c)
               && forall i :: 0 <= i < |input.boards| && FirstWin(input.boards, input.numbers, i).Some? ==>
                    WonNoLater(input.boards, input.numbers, i, c);
    assert WonNoLater(input.boards, input.numbers, b, c);
  }
}
