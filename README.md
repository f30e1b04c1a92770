# aoc2021 solvers, days one to four, in Dafny

This project models the puzzle solvers for days one to four of the Advent of
Code 2021 repository `aoc2021`. Each day is one Rust program. It parses its
input text and answers two questions about it.

- **Day one, sonar sweep** (`day_one.dfy`, module `DayOne`). This day reads one
  `i32` depth per line. Part one counts the depths larger than the depth before
  them. Part two counts the three-depth window sums larger than the window sum
  before them. Both parts are loops over the readings and are modelled as
  methods. Each method is proved against a set-valued specification, `Increases`.
- **Day two, dive** (`day_two.dfy`, module `DayTwo`). This day reads commands
  of the form `forward 5`, `down 2` and `up 3`. Part one and part two apply
  them to a `u64` submarine position under two rules, then multiply the
  horizontal position by the depth. The loops are methods. They are proved
  against the reference quantities `Horizontal`, `NetDown` and `AimedDepth`.
  Every `u64` overflow is an `Overflow` failure, including running below zero.
- **Day three, binary diagnostic** (`day_three.dfy`, module `DayThree`).
  - Part one counts the ones and zeros in each column. From those counts it
    builds the gamma and epsilon bit strings, reads each as a `u16`, and
    multiplies them.
  - Part two is `recurse`. It narrows the report, one bit position at a time,
    to the oxygen generator rating and the CO2 scrubber rating. `RatingOf` is
    the function that specifies it, and the `Rating` method follows the
    source's steps.
  - `get_bit_at` is `GetBitAt`.
- **Day four, giant squid bingo**. This day spans four files.
  - `day_four.dfy` (module `DayFour`) holds the boards and the game:
    - Boards are 25-slot buffers (`array<Slot>`). They are marked in place by
      `MarkBoard`, `MarkBoards` and `PlayGame`.
    - `IsWin` is the loop of `is_win`.
    - The winners list is built by `RecordWinners` and `PlayGame`. Its meaning
      is given by the functions `Play`, `Record`, `Winners` and `FirstWin`.
    - The scores are `Score`, `FirstWinnerScore` and `LastWinnerScore`.
  - `day_four_input.dfy` (module `DayFourInput`) holds `parse_input`:
    - `ParseInput` is a method with an in-place working board, specified by the
      line-by-line fold `Parse`.
    - The working board is never reset between boards, as in the source. A
      short row therefore keeps the cells of the previous board.
    - A sixth row or a sixth number in a row is an error, as the source's index
      panics are.
  - `day_four_text.dfy` (module `DayFourText`) writes a game back out as text
    in the puzzle's layout. It proves that `Parse` reads that text back.
  - `day_four_example.dfy` (module `DayFourExample`) works through the puzzle's
    example game.

`results.dfy` holds the `Result` and `Option` types.

`text.dfy` holds the parts of Rust's string handling that the parsers use:
- `str::lines`, `str::trim`, `str::split` and `str::split_whitespace`;
- integer parsing, restricted to an optional sign followed by ASCII digits.
  `Value` gives every string a number, counting a non-digit as 0, but the
  parsers call it only after checking that every character is a digit.

Every abort of the Rust programs becomes a `Failure` value with its own error
constructor. The aborts covered are an `unwrap` or `expect` on a failed parse,
`panic!`, an index out of bounds, and a debug-build overflow.

Where the code and the general description of the puzzles differ, the model
follows the code:
- Day four numbers are `u8` values from 0 to 255.
- A game with no boards is not an error of its own. It has no winner, so part
  one and part two fail with `NoWinner`.
- Day three's CO2 criterion empties a list of two or more lines whenever all of
  them have the same bit at the current position. This holds for the all-ones
  case and also for the all-zeros case. The filter runs before the count of
  remaining lines is checked. As a result, a report of a single line has an
  oxygen rating but no CO2 rating (`SingleLine`).

## Model

| member | source | states |
|---|---|---|
| DayOne.ParseInput | day-one/src/main.rs:23-34 | every reading of a parsed input is an i32 |
| DayOne.ParseLines | day-one/src/main.rs:23-34 | parsing succeeds iff every trimmed line reads as an i32; the readings are those values, one per line, in order; otherwise the first line that does not read is reported |
| DayOne.ReadingShown | day-one/src/main.rs:27-31 | an i32 written in decimal, with whitespace on both sides, reads back as itself |
| DayOne.ParseLinesShown | day-one/src/main.rs:23-34 | lines holding i32 values in decimal parse back into exactly those values |
| DayOne.IncreasesBelowBound | day-one/src/main.rs:36-50 | among the first n readings at most n - 1 are increases |
| DayOne.PartOne | day-one/src/main.rs:36-51 | the loop's count is the number of positions i >= 1 whose reading exceeds the one before it |
| DayOne.PartOneBound | day-one/src/main.rs:37-50 | part one is 0 for fewer than two readings and at most len - 1 otherwise |
| DayOne.IncreasesExact | day-one/src/main.rs:42-45 | position i counts iff 1 <= i < len and numbers[i] > numbers[i - 1]; equal neighbours and the first reading never count |
| DayOne.PartOneExample | day-one/src/main.rs:74-79 | part one of [1, 2, 5, 5, 2] is 2 |
| DayOne.WindowSums | day-one/src/main.rs:57-58 | there is one window sum for each start position, len - 2 of them, and none when len < 3 |
| DayOne.PartTwo | day-one/src/main.rs:53-68 | the loop fails with Overflow iff some window sum is outside i32, and otherwise counts the window sums larger than the one before |
| DayOne.WindowIncreases | day-one/src/main.rs:57-64 | window j increases on window j - 1 iff numbers[j + 2] > numbers[j - 1] |
| DayOne.PartTwoShort | day-one/src/main.rs:53-68 | fewer than four readings give 0 |
| DayOne.PartTwoExample | day-one/src/main.rs:81-86 | part two of the nine-reading example is 4 and no sum overflows |
| DayTwo.ParseDirection | day-two/src/main.rs:43-53 | a direction parses iff the token is exactly "forward", "down" or "up", and its keyword is that token; anything else is InvalidDirection |
| DayTwo.ParseCommand | day-two/src/main.rs:65-79 | a command needs exactly two pieces split at single spaces, otherwise it fails with InvalidShape; a bad first piece is InvalidDirection; with a good direction it succeeds iff the second piece is a u64, which becomes the value |
| DayTwo.ParseCommandText | day-two/src/main.rs:65-79 | every command with a u64 value is read back from "keyword value" |
| DayTwo.ParseInput | day-two/src/main.rs:82-92 | every parsed command value is a u64 |
| DayTwo.ParseLines | day-two/src/main.rs:82-92 | parsing succeeds iff every trimmed line is a command, keeping them in input order; otherwise it names a line that is not one |
| DayTwo.CommandOfIndented | day-two/src/main.rs:85-89 | an indented command line is trimmed and read as its command |
| DayTwo.ExampleLineOne | day-two/src/main.rs:150-155 | "forward 4" reads as Forward 4 |
| DayTwo.ExampleLineTwo | day-two/src/main.rs:150-155 | the indented "down 2" reads as Down 2 |
| DayTwo.ExampleLineThree | day-two/src/main.rs:150-155 | the indented "up 35" reads as Up 35 |
| DayTwo.ParseLinesOf | day-two/src/main.rs:82-92 | lines that each read as a command parse to those commands, in order |
| DayTwo.ParseExample | day-two/src/main.rs:148-174 | the test's three lines parse to Forward 4, Down 2, Up 35 |
| DayTwo.Step | day-two/src/main.rs:100-138 | how one command changes the horizontal position, the net down (part one's depth, part two's aim) and part two's depth |
| DayTwo.PartOne | day-two/src/main.rs:94-115 | succeeds iff every intermediate position and depth and the product fit in u64; the result is (sum of forwards) * (sum of downs - sum of ups); otherwise Overflow |
| DayTwo.PartOneExample | day-two/src/main.rs:176-202 | the five test commands give 92734 |
| DayTwo.PartTwo | day-two/src/main.rs:117-141 | succeeds iff every intermediate position, depth and aim and the product fit in u64; forward adds value * aim to the depth, and down and up change only the aim |
| DayTwo.MoveTwo | day-two/src/main.rs:126-137 | one turn of part two's loop succeeds iff every addition, subtraction and multiplication it does stays within u64 (TurnFitsTwo), and then gives the horizontal position, depth and aim that TurnTwo assigns to the command |
| DayTwo.TurnTwoStep | day-two/src/main.rs:125-138 | command k takes the reference quantities of the first k commands to those of the first k + 1, as TurnTwo says |
| DayTwo.FitsTwoNext | day-two/src/main.rs:125-138 | after a prefix whose position, depth and aim are all u64, the next prefix keeps them u64 iff the next command passes TurnFitsTwo's range checks |
| DayTwo.SnocTwo | day-two/src/main.rs:125-138 | appending a command moves the reference quantities as TurnTwo says |
| DayTwo.CourseFitsOneSnoc | day-two/src/main.rs:100-112 | part one never overflows on a course with one more command iff it does not on the course before it and the new horizontal position and depth are u64 |
| DayTwo.CourseFitsTwoSnoc | day-two/src/main.rs:125-138 | the same for part two, whose aim must stay u64 too |
| DayTwo.AimBelowZeroFails | day-two/src/main.rs:134-136 | an up larger than the aim so far makes part two fail |
| DayTwo.AimOnlyCommands | day-two/src/main.rs:131-136 | down and up leave the horizontal position and part two's depth unchanged and move the aim by their value |
| DayTwo.PartTwoExample | day-two/src/main.rs:204-230 | the five test commands give 3327240 |
| DayThree.ParseInput | day-three/src/main.rs:22-24 | one trimmed line per input line |
| DayThree.TrimLinesPadded | day-three/src/main.rs:22-24 | bit strings padded with whitespace are trimmed back to themselves |
| DayThree.CountAtBits | day-three/src/main.rs:29-42 | when every line has a bit at a column, the zeros and the ones there add up to the number of lines |
| DayThree.Gamma | day-three/src/main.rs:44-64 | gamma has one binary digit per column |
| DayThree.Epsilon | day-three/src/main.rs:44-64 | epsilon has one binary digit per column |
| DayThree.ParseBinary | day-three/src/main.rs:66-67 | a bit string read as a number no larger than the type's maximum, otherwise BadNumber |
| DayThree.PowerConsumption | day-three/src/main.rs:26-70 | part one's result is at most 65535 * 65535 |
| DayThree.CountColumns | day-three/src/main.rs:27-42 | the counting loops succeed iff each line has a '0' or '1' in each of the first n columns, and then give the count of ones and of zeros per column; otherwise BadCharacter |
| DayThree.BuildRates | day-three/src/main.rs:44-64 | gamma bit i is '1' iff ones > zeros in column i, and epsilon bit i is '1' iff ones < zeros; a tie leaves both '0' |
| DayThree.PartOne | day-three/src/main.rs:26-70 | part one computes PowerConsumption, including its error cases (empty report, bad character, a rate over u16) |
| DayThree.GammaEpsilon | day-three/src/main.rs:53-64 | a tied column gives 0 in both rates; with no tie the two rates add up to 2^n - 1 |
| DayThree.PowerConsumptionDefined | day-three/src/main.rs:26-70 | a non-empty well-formed report of width 1 to 16 always has a power consumption |
| DayThree.FilterMembers | day-three/src/main.rs:132-141 | the filter keeps exactly CountAt lines, each holding the required bit |
| DayThree.FilterKeeps | day-three/src/main.rs:132-141 | a line is kept iff it is in the list and holds the required bit at the position |
| DayThree.FilterIndices | day-three/src/main.rs:132-141 | the filter keeps the lines with the required bit in their original order |
| DayThree.RatingOf | day-three/src/main.rs:95-158 | recurse fails only with a bad character or an emptied list |
| DayThree.CountAtPosition | day-three/src/main.rs:100-113 | the counting loop succeeds iff every line has a bit at the position, and then returns the ones and the zeros there |
| DayThree.Rating | day-three/src/main.rs:95-158 | the recursive method computes RatingOf from position 0 when none is given |
| DayThree.RatingInInput | day-three/src/main.rs:143-148 | a rating found is a line of the original input |
| DayThree.OxygenKeepsSome | day-three/src/main.rs:115-122 | the oxygen criteria keep at least one line of a non-empty list |
| DayThree.Co2EmptiesUnanimous | day-three/src/main.rs:123-130 | the CO2 criteria empty a non-empty list iff all its lines have the same bit at the position |
| DayThree.OxygenNeverEmpty | day-three/src/main.rs:143-157 | the oxygen rating of a non-empty report never fails by running out of lines |
| DayThree.SingleLine | day-three/src/main.rs:143-157 | a one-line report has that line as its oxygen rating and no CO2 rating |
| DayThree.RatingRound | day-three/src/main.rs:143-157 | one line left is the answer; more than one recurses on the filtered list at the next position |
| DayThree.LifeSupport | day-three/src/main.rs:80-88 | part two's result fits in u64 |
| DayThree.LifeSupportOf | day-three/src/main.rs:80-88 | with both ratings found and read as u64 binary numbers, part two is their product |
| DayThree.PartTwo | day-three/src/main.rs:80-88 | part two computes LifeSupport, including its errors |
| DayThree.EmptyReportFails | day-three/src/main.rs:80-82 | an empty report has no rating |
| DayThree.GetBitAt | day-three/src/main.rs:72-78 | get_bit_at succeeds iff n < 16 |
| DayThree.BitOfValue | day-three/src/main.rs:72-78 | bit n of a binary string's value is its n-th digit from the right |
| DayThree.GetBitOfBinary | day-three/src/main.rs:72-78 | for a 16-digit binary string, get_bit_at(value, n) is whether digit 15 - n is '1', and it fails for n >= 16 |
| DayThree.ExampleLifeSupport | day-three/src/main.rs:175-183 | on the example the ratings are 10111 and 01010, and part two is 230 |
| DayThree.ExamplePowerConsumption | day-three/src/main.rs:164-173 | on the example gamma is 10110, epsilon is 01001, and part one is 198 |
| DayFour.NewUnmarked | day-four/src/main.rs:30-35 | a new slot holds its number and is unmarked |
| DayFour.Row | day-four/src/main.rs:153 | row r is the five slots of that row, in column order |
| DayFour.Column | day-four/src/main.rs:168 | column c is the five slots of that column, in row order |
| DayFour.CountMarkedAll | day-four/src/main.rs:153-158 | the marked count of a line reaches its length iff the whole line is marked |
| DayFour.IsWin | day-four/src/main.rs:150-184 | the loop returns true iff some row or some column is fully marked |
| DayFour.DiagonalDoesNotWin | day-four/src/main.rs:150-184 | a board marked exactly on its diagonal does not win |
| DayFour.MarkBoard | day-four/src/main.rs:111-115 | the board in place becomes Mark of its old contents |
| DayFour.MarkBoards | day-four/src/main.rs:110-116 | every board is marked with the draw |
| DayFour.MarkExactly | day-four/src/main.rs:111-115 | a draw marks exactly the slots holding its number, keeps every number, and never clears a mark |
| DayFour.PlayMarks | day-four/src/main.rs:109-116 | after some draws a slot is marked iff it was marked or its number was drawn |
| DayFour.MarksMonotone | day-four/src/main.rs:109-116 | more draws never clear a mark |
| DayFour.WinsStays | day-four/src/main.rs:109-119 | a winning board still wins after any further draw |
| DayFour.RecordWinners | day-four/src/main.rs:118-132 | the scan appends the newly winning boards, as Record says |
| DayFour.PlayGame | day-four/src/main.rs:105-136 | after the game the boards are Play of the draws and the winners list is Winners |
| DayFour.FirstWin | day-four/src/main.rs:105-136 | the first winning draw of a board, if any, is one of the draws |
| DayFour.FirstWinMeans | day-four/src/main.rs:118-131 | board b first wins at draw k iff it wins after draw k and after no earlier draw |
| DayFour.FirstWinNever | day-four/src/main.rs:118-131 | a board never wins iff it wins after no draw |
| DayFour.RecordAppends | day-four/src/main.rs:118-132 | one scan only appends winning boards that were not yet listed, with their current contents and the draw, in board order |
| DayFour.RecordListed | day-four/src/main.rs:118-132 | after a scan a board is listed iff it was already listed or it wins now |
| DayFour.WinnersSpec | day-four/src/main.rs:105-136 | every entry has the snapshot and draw of the moment its board first won; a board is listed iff it ever wins; entries are ordered by draw position, and by board index on the same draw |
| DayFour.WinnersStep | day-four/src/main.rs:108-133 | a draw whose scan appends as RecordAppends and RecordListed say keeps the list a winners list: snapshots of first wins, exactly the boards that ever win, in order of first win |
| DayFour.FirstOfWinners | day-four/src/main.rs:138-142 | a winners list is empty iff no board ever wins; otherwise its first entry's score is the winning score of a board that won no later than every other winner |
| DayFour.LastOfWinners | day-four/src/main.rs:144-148 | a winners list is empty iff no board ever wins; otherwise its last entry's score is the winning score of a board that won no earlier than every other winner |
| DayFour.WinnersDistinct | day-four/src/main.rs:121-124 | no board index is listed twice |
| DayFour.SumUnmarked | day-four/src/main.rs:187-193 | the unmarked sum is at most 255 per slot |
| DayFour.Score | day-four/src/main.rs:186-195 | the score (unmarked sum times draw) fits in u64 and is at most 25 * 255 * 255 |
| DayFour.SumUnmarkedMark | day-four/src/main.rs:111-115 | marking a draw lowers the unmarked sum by the draw times the number of unmarked slots holding it |
| DayFour.SumUnmarkedAllMarked | day-four/src/main.rs:187-193 | a fully marked board has unmarked sum 0 |
| DayFour.PlayInput | day-four/src/main.rs:105-136 | play_game on its own copies of the input's boards returns the Winners of the input's boards and draws |
| DayFour.PartOne | day-four/src/main.rs:138-142 | part one scores the first entry of the winners list and fails with NoWinner on an empty list |
| DayFour.PartTwo | day-four/src/main.rs:144-148 | part two scores the last entry of the winners list and fails with NoWinner on an empty list |
| DayFour.FirstWinnerScoreSpec | day-four/src/main.rs:138-142 | part one fails iff no board ever wins; otherwise it is the winning score of a board that won no later than every other winner |
| DayFour.LastWinnerScoreSpec | day-four/src/main.rs:144-148 | part two fails iff no board ever wins; otherwise it is the winning score of a board that won no earlier than every other winner |
| DayFour.FirstWinnerScoreOf | day-four/src/main.rs:138-142 | the board winning no later than all others determines part one |
| DayFour.LastWinnerScoreOf | day-four/src/main.rs:144-148 | the board winning no earlier than all others determines part two |
| DayFourInput.Number | day-four/src/main.rs:79-80 | a board or draw token is read as a u8 |
| DayFourInput.ParseDraws | day-four/src/main.rs:52-61 | the draws line succeeds iff every comma-separated piece is a u8, giving one draw per piece in order; otherwise BadNumber |
| DayFourInput.BlankGrid | day-four/src/main.rs:48 | the default working board has every slot 0 and unmarked |
| DayFourInput.ParseInput | day-four/src/main.rs:44-103 | the loop over the lines with an in-place working board computes Parse |
| DayFourInput.ReadLine | day-four/src/main.rs:50-96 | one line updates the working board in place and the counters as ParseLine says, or fails as it does |
| DayFourInput.FillWorking | day-four/src/main.rs:76-87 | filling a row in place succeeds exactly when FillRow does and leaves its board |
| DayFourInput.FillRowSpec | day-four/src/main.rs:76-87 | a row fills iff every token is a u8, the row is below 5, and there are at most 5 tokens; slot 5 * row + i then holds token i unmarked and every other slot is unchanged |
| DayFourInput.FillRowFails | day-four/src/main.rs:76-87 | a failure on an earlier token stops the row |
| DayFourInput.ParsedUnmarked | day-four/src/main.rs:85-86 | every slot of every parsed board is unmarked |
| DayFourInput.BlankLineInBoardFails | day-four/src/main.rs:64-67 | a blank line after line 1, reached when the current board does not have exactly five rows, makes parsing fail |
| DayFourInput.BlankLineRejected | day-four/src/main.rs:64-67 | the same, for one line |
| DayFourInput.FoldAppend | day-four/src/main.rs:49-98 | reading a + b is reading a and then b, and a failure in a is final |
| DayFourText.RowRead | day-four/src/main.rs:76-90 | a row written with its numbers right-aligned fills that row of the working board |
| DayFourText.BoardRead | day-four/src/main.rs:76-95 | five rows written out rebuild the board, and the fifth appends it to the boards |
| DayFourText.SeparatorRead | day-four/src/main.rs:64-72 | a blank separator after five rows starts the next board |
| DayFourText.BoardsRead | day-four/src/main.rs:63-96 | the boards written out are read back in order |
| DayFourText.DrawsRead | day-four/src/main.rs:52-61 | the draws joined by commas are read back |
| DayFourText.HeaderRead | day-four/src/main.rs:51-62 | the draws line and the skipped line set the draws and nothing else |
| DayFourText.ParseInputText | day-four/src/main.rs:44-103 | any game with at least one draw and one board, all slots unmarked, written in the puzzle's layout, parses back to itself |
| DayFourExample.PlayMarkedBy | day-four/src/main.rs:109-116 | after some draws a board is its start with every drawn number marked |
| DayFourExample.WinsCells | day-four/src/main.rs:150-184 | winning spelled out over the 25 cells: one of five rows or one of five columns is complete |
| DayFourExample.FirstWinAt | day-four/src/main.rs:118-131 | a board that wins after draw k but not after draw k - 1 first wins at k |
| DayFourExample.BoardThreeFirstWin | day-four/src/main.rs:240-286 | in the example the third board first wins on the twelfth draw, 24 |
| DayFourExample.BoardOneFirstWin | day-four/src/main.rs:240-286 | the first board first wins on the fourteenth draw, 16 |
| DayFourExample.BoardTwoFirstWin | day-four/src/main.rs:240-286 | the second board first wins on the fifteenth draw, 13 |
| DayFourExample.BoardThreeScore | day-four/src/main.rs:274-279 | the third board's winning score is 188 * 24 = 4512 |
| DayFourExample.BoardTwoScore | day-four/src/main.rs:281-286 | the second board's winning score is 148 * 13 = 1924 |
| DayFourExample.PartOneExample | day-four/src/main.rs:274-279 | part one of the example is 4512 |
| DayFourExample.PartTwoExample | day-four/src/main.rs:281-286 | part two of the example is 1924 |
| DayFourExample.ExampleParses | day-four/src/main.rs:238-272 | the example written in the puzzle's layout, with the boards indented by eight spaces, parses to the 27 draws and the three boards |
| Text.TrimPadded | day-one/src/main.rs:27 | trimming removes exactly the whitespace around a text |
| Text.JoinSplit | day-two/src/main.rs:66 | joining the pieces of a split with the separator gives the text back |
| Text.LinesJoin | day-one/src/main.rs:25 | lines joined with '\n' are cut back into the same lines |
| Text.ParseShow | day-four/src/main.rs:57 | every value up to the maximum reads back from its digits |
| Text.ParseShowI32 | day-one/src/main.rs:29 | every i32 reads back from its decimal text |

## Left out

- `common::read_input` and every `main` function are left out. They read a file and print, and the parsers take the text as a string instead.
- `ndarray::Array2` is not modelled. A board is 25 slots in row-major order, and `ndarray` iterates and indexes in that same order.
- `anyhow` error contexts and messages are left out. Each failure is a constructor of the day's `Error` type.
- Rust's number parsing is reduced to the grammar the inputs use: an optional `+`, or `-` for `i32`, followed by ASCII digits, with a range check.
- The model always takes overflow to be an error, which is the debug-build behaviour. The wrap-around of release builds is not modelled.
- DayOne.PartOne: the `i32` answer counter is a `nat`. Its overflow would need more than 2^31 readings and is not modelled.
- DayOne.PartTwo: the same holds for the `i32` answer counter.
- DayThree.CountColumns: the `i32` column counters are `nat`s for the same reason.
- DayFourExample.ExampleParses states the parse of the example laid out by `InputText` with an eight-space indent. It does not prove character by character that this text equals the test's literal string.
- `play_game` receives its input by value, so the callers' boards are copies. The model shows this with fresh buffers from `NewBoards`. Aliasing between boards is ruled out by `Boards`, which requires distinct buffers.
