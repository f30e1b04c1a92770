/** Day two: dive.  The input is one submarine command per line, such as
    "forward 5"; part one and part two read the commands under two different
    rules and multiply the final horizontal position by the final depth.  The
    position, the depth and the aim are u64 values, so running below zero or
    above 2^64 - 1 is an arithmetic overflow. */
module DayTwo {
  import opened Results
  import opened Text

  const U64_MAX: nat := 0xFFFF_FFFF_FFFF_FFFF

  datatype Direction = Forward | Down | Up

  /** A command; its value is a u64. */
  datatype Command = Command(direction: Direction, value: nat)

  /** The position being tracked by both parts (`SubPosition`). */
  datatype SubPosition = SubPosition(horizontal: nat, depth: nat)

  datatype Error =
    | InvalidDirection       // the first token is not a direction
    | InvalidValue           // the second token is not a u64
    | InvalidShape           // not exactly two tokens separated by one space
    | InvalidLine(line: nat) // the line of the input holding a bad command
    | Overflow               // a u64 running below zero or above its maximum

  // ---------------------------------------------------------------------------
  // Parsing
  // ---------------------------------------------------------------------------

  /** The keyword of each direction. */
  function Name(d: Direction): string {
    match d
    case Forward => "forward"
    case Down => "down"
    case Up => "up"
  }

  /** `Direction::from_str`: exactly one of the three keywords. */
  function ParseDirection(s: string): (r: Result<Direction, Error>)
    ensures r.Success? <==> s == "forward" || s == "down" || s == "up"
    ensures r.Success? ==> Name(r.value) == s
    ensures r.Failure? ==> r.error == InvalidDirection
  {
    if s == "forward" then Success(Forward)
    else if s == "down" then Success(Down)
    else if s == "up" then Success(Up)
    else Failure(InvalidDirection)
  }

  /** Each keyword is read back as its own direction. */
  lemma ParseName(d: Direction)
    ensures ParseDirection(Name(d)) == Success(d)
  {
    match d
    case Forward =>
    case Down => assert |Name(d)| == 4;
    case Up => assert |Name(d)| == 2;
  }

  /** `DirectionCommand::from_str`: two tokens split at single spaces, a
      direction and a u64. */
  function ParseCommand(s: string): (r: Result<Command, Error>)
    ensures r.Success? ==> |Split(s, ' ')| == 2
    ensures r.Success? ==> Split(s, ' ')[0] == Name(r.value.direction)
    ensures r.Success? ==> ParseUnsigned(Split(s, ' ')[1], 10, U64_MAX) == Some(r.value.value)
    ensures r.Success? ==> r.value.value <= U64_MAX
    ensures |Split(s, ' ')| != 2 ==> r == Failure(InvalidShape)
    ensures |Split(s, ' ')| == 2 && ParseDirection(Split(s, ' ')[0]).Failure? ==> r == Failure(InvalidDirection)
    ensures |Split(s, ' ')| == 2 && ParseDirection(Split(s, ' ')[0]).Success? ==>
              (r.Success? <==> ParseUnsigned(Split(s, ' ')[1], 10, U64_MAX).Some?)
    ensures r.Failure? ==> r.error == InvalidShape || r.error == InvalidDirection || r.error == InvalidValue
  {
    var pieces := Split(s, ' ');
    if |pieces| != 2 then
      Failure(InvalidShape)
    else
      var direction :- ParseDirection(pieces[0]);
      match ParseUnsigned(pieces[1], 10, U64_MAX)
      case None => Failure(InvalidValue)
      case Some(value) => Success(Command(direction, value))
  }

  /** The text of a command: its keyword, one space, its value in decimal. */
  function CommandText(c: Command): string {
    Name(c.direction) + " " + Show(c.value, 10)
  }

  /** Every command with a u64 value is read back from its own text. */
  lemma ParseCommandText(c: Command)
    requires c.value <= U64_MAX
    ensures ParseCommand(CommandText(c)) == Success(c)
  {
    var name, digits := Name(c.direction), Show(c.value, 10);
    assert forall i :: 0 <= i < |digits| ==> IsDigit(digits[i], 10);
    assert ' ' !in digits;
    assert ' ' !in name;
    var parts := [name, digits];
    assert parts[..1] == [name];
    assert Join(parts, ' ') == name + [' '] + digits;
    assert Join(parts, ' ') == CommandText(c);
    SplitJoin(parts, ' ');
    ParseShow(c.value, 10, U64_MAX);
    ParseName(c.direction);
    assert Split(CommandText(c), ' ') == parts;
  }

  /** One input line: trimmed, then read as a command. */
  function CommandOf(line: string): Option<Command> {
    match ParseCommand(Trim(line))
    case Success(c) => Some(c)
    case Failure(_) => None
  }

  /** `parse_input`: every line read as a command, in input order; the first
      line that is not a command is reported. */
  function ParseInput(raw: string): (r: Result<seq<Command>, Error>)
    ensures r.Success? ==> forall i :: 0 <= i < |r.value| ==> r.value[i].value <= U64_MAX
  {
    ParseLines(Lines(raw))
  }

  function ParseLines(lines: seq<string>): (r: Result<seq<Command>, Error>)
    ensures r.Success? <==> forall i :: 0 <= i < |lines| ==> CommandOf(lines[i]).Some?
    ensures r.Success? ==> |r.value| == |lines|
                           && forall i :: 0 <= i < |lines| ==> CommandOf(lines[i]) == Some(r.value[i])
    ensures r.Success? ==> forall i :: 0 <= i < |lines| ==> r.value[i].value <= U64_MAX
    ensures r.Failure? ==> r.error.InvalidLine? && r.error.line < |lines|
                           && CommandOf(lines[r.error.line]).None?
  {
    match ParseEach(lines, CommandOf)
    case Success(commands) => Success(commands)
    case Failure(bad) => Failure(InvalidLine(bad))
  }

  /** A command's text, indented, is read back as that command. */
  lemma CommandOfIndented(c: Command, indent: string)
    requires c.value <= U64_MAX && AllWhitespace(indent)
    ensures CommandOf(indent + CommandText(c)) == Some(c)
  {
    var text := CommandText(c);
    var digits := Show(c.value, 10);
    assert text[|text| - 1] == digits[|digits| - 1];
    assert IsDigit(digits[|digits| - 1], 10);
    assert !IsWhitespace(text[0]);
    TrimPadded(indent, text, []);
    assert indent + text + [] == indent + text;
    ParseCommandText(c);
  }

  /** The first line of the example input. */
  lemma ExampleLineOne()
    ensures CommandOf("forward 4") == Some(Command(Forward, 4))
  {
    CommandOfIndented(Command(Forward, 4), "");
    ExampleTextOne();
  }

  lemma ExampleTextOne()
    ensures "" + CommandText(Command(Forward, 4)) == "forward 4"
  {
    assert CommandText(Command(Forward, 4)) == "forward 4";
  }

  /** The second line of the example input, indented as in the source's test. */
  lemma ExampleLineTwo()
    ensures CommandOf("            down 2") == Some(Command(Down, 2))
  {
    CommandOfIndented(Command(Down, 2), "            ");
    ExampleTextTwo();
  }

  lemma ExampleTextTwo()
    ensures "            " + CommandText(Command(Down, 2)) == "            down 2"
  {
    assert CommandText(Command(Down, 2)) == "down 2";
  }

  /** The third line of the example input. */
  lemma ExampleLineThree()
    ensures CommandOf("            up 35") == Some(Command(Up, 35))
  {
    CommandOfIndented(Command(Up, 35), "            ");
    ExampleTextThree();
  }

  lemma ExampleTextThree()
    ensures "            " + CommandText(Command(Up, 35)) == "            up 35"
  {
    ShowThirtyFive();
    assert CommandText(Command(Up, 35)) == "up 35";
  }

  lemma ShowThirtyFive()
    ensures Show(35, 10) == "35"
  {
    assert Show(3, 10) == "3";
    assert DigitChar(35 % 10, 10) == '5';
    assert Show(35, 10) == Show(3, 10) + [DigitChar(35 % 10, 10)];
  }

  /** Lines each read as the matching command parse to those commands. */
  lemma ParseLinesOf(lines: seq<string>, cmds: seq<Command>)
    requires |lines| == |cmds|
    requires forall i :: 0 <= i < |lines| ==> CommandOf(lines[i]) == Some(cmds[i])
    ensures ParseLines(lines) == Success(cmds)
  {
    var r := ParseLines(lines);
    assert r.value == cmds;
  }

  /** The example input parses to its three commands, in order. */
  lemma ParseExample()
    ensures ParseLines(["forward 4", "            down 2", "            up 35"])
            == Success([Command(Forward, 4), Command(Down, 2), Command(Up, 35)])
  {
    var lines := ["forward 4", "            down 2", "            up 35"];
    var cmds := [Command(Forward, 4), Command(Down, 2), Command(Up, 35)];
    forall i | 0 <= i < 3
      ensures CommandOf(lines[i]) == Some(cmds[i])
    {
      if i == 0 {
        ExampleLineOne();
      } else if i == 1 {
        ExampleLineTwo();
      } else {
        ExampleLineThree();
      }
    }
    ParseLinesOf(lines, cmds);
  }

  // ---------------------------------------------------------------------------
  // Reference quantities, defined on the commands read so far
  // ---------------------------------------------------------------------------

  /** Sum of the forward values: the horizontal position under both rules. */
  function Horizontal(cmds: seq<Command>): nat {
    if cmds == [] then 0
    else
      var last := cmds[|cmds| - 1];
      Horizontal(cmds[..|cmds| - 1]) + (if last.direction == Forward then last.value else 0)
  }

  /** Sum of the down values minus sum of the up values: the depth under
      part one's rule and the aim under part two's. */
  function NetDown(cmds: seq<Command>): int {
    if cmds == [] then 0
    else
      var last := cmds[|cmds| - 1];
      NetDown(cmds[..|cmds| - 1])
        + match last.direction
          case Forward => 0
          case Down => last.value
          case Up => -(last.value as int)
  }

  /** Part two's depth: each forward value times the aim in force when it is read. */
  function AimedDepth(cmds: seq<Command>): int {
    if cmds == [] then 0
    else
      var last := cmds[|cmds| - 1];
      var before := cmds[..|cmds| - 1];
      AimedDepth(before) + (if last.direction == Forward then last.value * NetDown(before) else 0)
  }

  predicate IsU64(x: int) {
    0 <= x <= U64_MAX
  }

  /** Under part one's rule, the u64 fields are in range after the first `k` commands. */
  predicate FitsOne(cmds: seq<Command>, k: nat)
    requires k <= |cmds|
  {
    IsU64(Horizontal(cmds[..k])) && IsU64(NetDown(cmds[..k]))
  }

  predicate CourseFitsOne(cmds: seq<Command>) {
    forall k :: 0 <= k <= |cmds| ==> FitsOne(cmds, k)
  }

  /** Under part two's rule, the u64 fields and the aim are in range after
      the first `k` commands. */
  predicate FitsTwo(cmds: seq<Command>, k: nat)
    requires k <= |cmds|
  {
    IsU64(Horizontal(cmds[..k])) && IsU64(NetDown(cmds[..k])) && IsU64(AimedDepth(cmds[..k]))
  }

  predicate CourseFitsTwo(cmds: seq<Command>) {
    forall k :: 0 <= k <= |cmds| ==> FitsTwo(cmds, k)
  }

  /** How the reference quantities change with command k. */
  lemma Step(cmds: seq<Command>, k: nat)
    requires k < |cmds|
    ensures Horizontal(cmds[..k + 1])
            == Horizontal(cmds[..k]) + (if cmds[k].direction == Forward then cmds[k].value else 0)
    ensures NetDown(cmds[..k + 1])
            == NetDown(cmds[..k]) + (match cmds[k].direction
                                     case Forward => 0
                                     case Down => cmds[k].value
                                     case Up => -(cmds[k].value as int))
    ensures AimedDepth(cmds[..k + 1])
            == AimedDepth(cmds[..k])
               + (if cmds[k].direction == Forward then cmds[k].value * NetDown(cmds[..k]) else 0)
  {
    assert cmds[..k + 1][..k] == cmds[..k];
  }

  /** Appending a command moves the reference quantities as `TurnTwo` says. */
  lemma SnocTwo(cmds: seq<Command>, c: Command)
    ensures (Horizontal(cmds + [c]), AimedDepth(cmds + [c]), NetDown(cmds + [c]))
            == TurnTwo(c, Horizontal(cmds), AimedDepth(cmds), NetDown(cmds))
  {
    assert (cmds + [c])[..|cmds|] == cmds;
  }

  /** Every prefix of `cmds + [c]` but the whole is a prefix of `cmds`. */
  lemma SnocPrefixes(cmds: seq<Command>, c: Command)
    ensures forall k :: 0 <= k <= |cmds| ==> (cmds + [c])[..k] == cmds[..k]
    ensures (cmds + [c])[..|cmds| + 1] == cmds + [c]
  {
  }

  /** Part one's course with one more command fits exactly when the course
      before it fits and the quantities after it are u64 values. */
  lemma CourseFitsOneSnoc(cmds: seq<Command>, c: Command)
    ensures CourseFitsOne(cmds + [c])
            <==> CourseFitsOne(cmds) && IsU64(Horizontal(cmds + [c])) && IsU64(NetDown(cmds + [c]))
  {
    SnocPrefixes(cmds, c);
    assert cmds[..|cmds|] == cmds;
    if CourseFitsOne(cmds + [c]) {
      assert FitsOne(cmds + [c], |cmds| + 1);
      forall k | 0 <= k <= |cmds|
        ensures FitsOne(cmds, k)
      {
        assert FitsOne(cmds + [c], k);
      }
    }
    if CourseFitsOne(cmds) && IsU64(Horizontal(cmds + [c])) && IsU64(NetDown(cmds + [c])) {
      forall k | 0 <= k <= |cmds| + 1
        ensures FitsOne(cmds + [c], k)
      {
        if k <= |cmds| {
          assert FitsOne(cmds, k);
        }
      }
    }
  }

  /** The same for part two, whose aim must stay a u64 value too. */
  lemma CourseFitsTwoSnoc(cmds: seq<Command>, c: Command)
    ensures CourseFitsTwo(cmds + [c])
            <==> && CourseFitsTwo(cmds) && IsU64(Horizontal(cmds + [c]))
                 && IsU64(NetDown(cmds + [c])) && IsU64(AimedDepth(cmds + [c]))
  {
    SnocPrefixes(cmds, c);
    assert cmds[..|cmds|] == cmds;
    if CourseFitsTwo(cmds + [c]) {
      assert FitsTwo(cmds + [c], |cmds| + 1);
      forall k | 0 <= k <= |cmds|
        ensures FitsTwo(cmds, k)
      {
        assert FitsTwo(cmds + [c], k);
      }
    }
    if && CourseFitsTwo(cmds) && IsU64(Horizontal(cmds + [c]))
       && IsU64(NetDown(cmds + [c])) && IsU64(AimedDepth(cmds + [c])) {
      forall k | 0 <= k <= |cmds| + 1
        ensures FitsTwo(cmds + [c], k)
      {
        if k <= |cmds| {
          assert FitsTwo(cmds, k);
        }
      }
    }
  }

  /** The empty course fits under both rules, with every quantity zero. */
  lemma EmptyCourse()
    ensures CourseFitsOne([]) && CourseFitsTwo([])
    ensures Horizontal([]) == 0 && NetDown([]) == 0 && AimedDepth([]) == 0
  {
    assert FitsOne([], 0) && FitsTwo([], 0);
  }

  // ---------------------------------------------------------------------------
  // Part one
  // ---------------------------------------------------------------------------

  /** `part_one`: forward moves ahead, down and up change the depth; the
      answer is horizontal position times depth. */
  method PartOne(commands: seq<Command>) returns (r: Result<nat, Error>)
    ensures r.Success? <==> CourseFitsOne(commands) && IsU64(Horizontal(commands) * NetDown(commands))
    ensures r.Success? ==> r.value == Horizontal(commands) * NetDown(commands)
    ensures r.Failure? ==> r.error == Overflow
  {
    var pos := SubPosition(0, 0);
    for k := 0 to |commands|
      invariant pos.horizontal == Horizontal(commands[..k])
      invariant pos.depth == NetDown(commands[..k])
      invariant forall j :: 0 <= j <= k ==> FitsOne(commands, j)
    {
      Step(commands, k);
      assert FitsOne(commands, k);
      var command := commands[k];
      match command.direction
      case Forward =>
        if pos.horizontal + command.value > U64_MAX {
          assert !FitsOne(commands, k + 1);
          return Failure(Overflow);
        }
        pos := pos.(horizontal := pos.horizontal + command.value);
      case Down =>
        if pos.depth + command.value > U64_MAX {
          assert !FitsOne(commands, k + 1);
          return Failure(Overflow);
        }
        pos := pos.(depth := pos.depth + command.value);
      case Up =>
        if pos.depth < command.value {
          assert !FitsOne(commands, k + 1);
          return Failure(Overflow);
        }
        pos := pos.(depth := pos.depth - command.value);
    }
    assert commands[..|commands|] == commands;
    if pos.horizontal * pos.depth > U64_MAX {
      return Failure(Overflow);
    }
    return Success(pos.horizontal * pos.depth);
  }

  /** The example commands: horizontal 466, depth 199, answer 92734. */
  lemma PartOneExample()
    ensures var cmds := [Command(Forward, 432), Command(Down, 210), Command(Forward, 34),
                         Command(Up, 11), Command(Down, 0)];
            CourseFitsOne(cmds) && Horizontal(cmds) * NetDown(cmds) == 92734
  {
    var c0, c1, c2, c3, c4 := Command(Forward, 432), Command(Down, 210), Command(Forward, 34),
                              Command(Up, 11), Command(Down, 0);
    var p1 := [c0];
    var p2 := p1 + [c1];
    var p3 := p2 + [c2];
    var p4 := p3 + [c3];
    var p5 := p4 + [c4];
    EmptyCourse();
    assert p1 == [] + [c0];
    SnocTwo([], c0); SnocTwo(p1, c1); SnocTwo(p2, c2); SnocTwo(p3, c3); SnocTwo(p4, c4);
    CourseFitsOneSnoc([], c0); CourseFitsOneSnoc(p1, c1); CourseFitsOneSnoc(p2, c2);
    CourseFitsOneSnoc(p3, c3); CourseFitsOneSnoc(p4, c4);
    assert p5 == [c0, c1, c2, c3, c4];
  }

  // ---------------------------------------------------------------------------
  // Part two
  // ---------------------------------------------------------------------------

  /** Part two's reading of one command from horizontal position `h`, depth
      `d` and aim `a`, before any range check. */
  function TurnTwo(c: Command, h: int, d: int, a: int): (int, int, int) {
    match c.direction
    case Forward => (h + c.value, d + c.value * a, a)
    case Down => (h, d, a + c.value)
    case Up => (h, d, a - c.value)
  }

  /** Whether that reading keeps every u64 field in range, given that they
      were in range before it. */
  predicate TurnFitsTwo(c: Command, h: int, d: int, a: int) {
    match c.direction
    case Forward => h + c.value <= U64_MAX && d + c.value * a <= U64_MAX
    case Down => a + c.value <= U64_MAX
    case Up => c.value <= a
  }

  /** Command k moves part two's reference quantities by `TurnTwo`. */
  lemma TurnTwoStep(cmds: seq<Command>, k: nat)
    requires k < |cmds|
    ensures (Horizontal(cmds[..k + 1]), AimedDepth(cmds[..k + 1]), NetDown(cmds[..k + 1]))
            == TurnTwo(cmds[k], Horizontal(cmds[..k]), AimedDepth(cmds[..k]), NetDown(cmds[..k]))
  {
    Step(cmds, k);
  }

  /** After a prefix that fits, the next prefix fits exactly when the next
      command passes the range checks of `TurnFitsTwo`. */
  lemma FitsTwoNext(cmds: seq<Command>, k: nat)
    requires k < |cmds| && FitsTwo(cmds, k)
    ensures FitsTwo(cmds, k + 1)
            <==> TurnFitsTwo(cmds[k], Horizontal(cmds[..k]), AimedDepth(cmds[..k]), NetDown(cmds[..k]))
  {
    Step(cmds, k);
    MulNat(cmds[k].value, NetDown(cmds[..k]));
  }

  lemma MulNat(a: nat, b: int)
    requires b >= 0
    ensures a * b >= 0
  {
  }

  /** One turn of `part_two`'s loop: the command applied to the position and
      the aim, or `None` when a u64 field would leave its range. */
  method MoveTwo(command: Command, pos: SubPosition, aim: nat) returns (next: Option<(SubPosition, nat)>)
    ensures next.Some? <==> TurnFitsTwo(command, pos.horizontal, pos.depth, aim)
    ensures next.Some? ==>
              TurnTwo(command, pos.horizontal, pos.depth, aim)
              == (next.value.0.horizontal, next.value.0.depth, next.value.1)
  {
    match command.direction
    case Forward =>
      if pos.horizontal + command.value > U64_MAX {
        return None;
      }
      var dive: nat := command.value * aim;
      if dive > U64_MAX || pos.depth + dive > U64_MAX {
        return None;
      }
      return Some((SubPosition(pos.horizontal + command.value, pos.depth + dive), aim));
    case Down =>
      if aim + command.value > U64_MAX {
        return None;
      }
      return Some((pos, aim + command.value));
    case Up =>
      if aim < command.value {
        return None;
      }
      return Some((pos, aim - command.value));
  }

  /** `part_two`: down and up change only the aim; forward moves ahead and
      goes down by its value times the aim. */
  method PartTwo(commands: seq<Command>) returns (r: Result<nat, Error>)
    ensures r.Success? <==> CourseFitsTwo(commands) && IsU64(Horizontal(commands) * AimedDepth(commands))
    ensures r.Success? ==> r.value == Horizontal(commands) * AimedDepth(commands)
    ensures r.Failure? ==> r.error == Overflow
  {
    var pos := SubPosition(0, 0);
    var aim: nat := 0;
    for k := 0 to |commands|
      invariant pos.horizontal == Horizontal(commands[..k])
      invariant pos.depth == AimedDepth(commands[..k])
      invariant aim == NetDown(commands[..k])
      invariant forall j :: 0 <= j <= k ==> FitsTwo(commands, j)
    {
      TurnTwoStep(commands, k);
      FitsTwoNext(commands, k);
      var next := MoveTwo(commands[k], pos, aim);
      if next.None? {
        return Failure(Overflow);
      }
      pos, aim := next.value.0, next.value.1;
    }
    assert commands[..|commands|] == commands;
    if pos.horizontal * pos.depth > U64_MAX {
      return Failure(Overflow);
    }
    return Success(pos.horizontal * pos.depth);
  }

  /** An up that takes the aim below zero is an overflow under part two,
      whatever follows it. */
  lemma {:induction false} AimBelowZeroFails(cmds: seq<Command>, k: nat)
    requires k < |cmds| && cmds[k].direction == Up
    requires NetDown(cmds[..k]) < cmds[k].value
    ensures !CourseFitsTwo(cmds)
  {
    Step(cmds, k);
    assert !FitsTwo(cmds, k + 1);
  }

  /** Down and up leave the horizontal position and part two's depth alone. */
  lemma AimOnlyCommands(cmds: seq<Command>, c: Command)
    requires c.direction != Forward
    ensures Horizontal(cmds + [c]) == Horizontal(cmds)
    ensures AimedDepth(cmds + [c]) == AimedDepth(cmds)
    ensures NetDown(cmds + [c]) == NetDown(cmds) + (if c.direction == Down then c.value as int else -(c.value as int))
  {
    assert (cmds + [c])[..|cmds|] == cmds;
  }

  /** The example commands: horizontal 466, depth 7140, answer 3327240. */
  lemma PartTwoExample()
    ensures var cmds := [Command(Forward, 432), Command(Down, 210), Command(Forward, 34),
                         Command(Up, 11), Command(Down, 0)];
            CourseFitsTwo(cmds) && Horizontal(cmds) * AimedDepth(cmds) == 3327240
  {
    var c0, c1, c2, c3, c4 := Command(Forward, 432), Command(Down, 210), Command(Forward, 34),
                              Command(Up, 11), Command(Down, 0);
    var p1 := [c0];
    var p2 := p1 + [c1];
    var p3 := p2 + [c2];
    var p4 := p3 + [c3];
    var p5 := p4 + [c4];
    EmptyCourse();
    assert p1 == [] + [c0];
    SnocTwo([], c0); SnocTwo(p1, c1); SnocTwo(p2, c2); SnocTwo(p3, c3); SnocTwo(p4, c4);
    CourseFitsTwoSnoc([], c0); CourseFitsTwoSnoc(p1, c1); CourseFitsTwoSnoc(p2, c2);
    CourseFitsTwoSnoc(p3, c3); CourseFitsTwoSnoc(p4, c4);
    assert p5 == [c0, c1, c2, c3, c4];
  }
}
