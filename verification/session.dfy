/** What one pass of a UCI read loop does, shared by both front-ends: the
    lines it prints, what it does to the python-chess board, and whether it
    leaves the loop. The library board itself is never interpreted: it is
    represented by how it was built. */
module Session {
  import opened Wrappers

  /** The board update of one command. */
  datatype BoardAction =
    | Keep                                            // board untouched
    | Reset                                           // `chess.Board()`
    | SetFen(fen: string)                             // `chess.Board(fen)`
    | ResetThenPush(moves: seq<string>)               // `chess.Board()`, then `push` each move
    | SetFenThenPush(fen: string, moves: seq<string>) // `chess.Board(fen)`, then `push` each move

  datatype StepResult = StepResult(output: seq<string>, action: BoardAction, stop: bool)

  /** How the current board was constructed. */
  datatype Origin = StartPosition | FromFen(fen: string)

  /** The python-chess board as its history: where it started and the move
      strings pushed since, in order. */
  datatype Position = Position(origin: Origin, pushed: seq<string>)

  /** The board after one command. */
  function Apply(a: BoardAction, p: Position): (q: Position)
    ensures a.Keep? ==> q == p
    ensures !a.Keep? ==> (q.origin == StartPosition <==> a.Reset? || a.ResetThenPush?)
  {
    match a
    case Keep => p
    case Reset => Position(StartPosition, [])
    case SetFen(f) => Position(FromFen(f), [])
    case ResetThenPush(ms) => Position(StartPosition, ms)
    case SetFenThenPush(f, ms) => Position(FromFen(f), ms)
  }

  /** Every action but `Keep` replaces the board wholesale: what was there
      before does not matter. */
  lemma ReplaceForgets(a: BoardAction, p1: Position, p2: Position)
    requires !a.Keep?
    ensures Apply(a, p1) == Apply(a, p2)
  {
  }

  /** How a run of the read loop ends. */
  datatype End =
    | Quit         // the loop broke out
    | Crashed      // an IndexError escaped the loop
    | InputEnded   // no more lines: `input()` raises EOFError

  datatype Trace = Trace(output: seq<string>, board: Position, end: End)

  /** The `while True` loop over a sequence of input lines, given the
      per-line step. */
  function Run(step: string -> Result<StepResult>, lines: seq<string>, p: Position): (t: Trace)
    ensures lines == [] ==> t == Trace([], p, InputEnded)
  {
    if lines == [] then Trace([], p, InputEnded)
    else match step(lines[0])
      case Err(_) => Trace([], p, Crashed)
      case Ok(s) =>
        var q := Apply(s.action, p);
        if s.stop then Trace(s.output, q, Quit)
        else
          var t := Run(step, lines[1..], q);
          Trace(s.output + t.output, t.board, t.end)
  }

  /** A line that neither crashes nor stops: its output comes first, then
      the rest of the run from the updated board. */
  lemma RunCons(step: string -> Result<StepResult>, line: string, rest: seq<string>, p: Position)
    requires step(line).Ok? && !step(line).value.stop
    ensures Run(step, [line] + rest, p).output == step(line).value.output + Run(step, rest, Apply(step(line).value.action, p)).output
    ensures Run(step, [line] + rest, p).board == Run(step, rest, Apply(step(line).value.action, p)).board
    ensures Run(step, [line] + rest, p).end == Run(step, rest, Apply(step(line).value.action, p)).end
  {
    assert ([line] + rest)[1..] == rest;
  }

  /** Two lines that neither crash nor stop, then the input ends. */
  lemma RunTwo(step: string -> Result<StepResult>, line1: string, line2: string, p: Position)
    requires step(line1).Ok? && !step(line1).value.stop
    requires step(line2).Ok? && !step(line2).value.stop
    ensures Run(step, [line1, line2], p) == Trace(step(line1).value.output + step(line2).value.output,
      Apply(step(line2).value.action, Apply(step(line1).value.action, p)), InputEnded)
  {
    RunCons(step, line1, [line2], p);
    RunCons(step, line2, [], Apply(step(line1).value.action, p));
    assert [line1] + [line2] == [line1, line2];
    assert [line2] + [] == [line2];
  }

  /** Once the loop has stopped or crashed, later lines are never read. */
  lemma {:induction false} RunIgnoresRest(step: string -> Result<StepResult>, a: seq<string>, b: seq<string>, p: Position)
    requires Run(step, a, p).end != InputEnded
    ensures Run(step, a + b, p) == Run(step, a, p)
  {
    assert a != [];
    assert (a + b)[0] == a[0];
    assert (a + b)[1..] == a[1..] + b;
    match step(a[0])
    case Err(_) =>
    case Ok(s) =>
      if !s.stop {
        RunIgnoresRest(step, a[1..], b, Apply(s.action, p));
      }
  }
}
