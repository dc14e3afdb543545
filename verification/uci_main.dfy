/** One pass of `FernBeaEngine.uci_loop` (fernbea/main.py): split the line,
    dispatch on the first token, print, update the board, maybe stop. */
module UciMain {
  import opened Wrappers
  import opened Tokens
  import opened Session

  /** The position of the first occurrence of `x`: Python's `list.index`. */
  function FirstIndex(parts: seq<string>, x: string): (k: nat)
    requires x in parts
    ensures k < |parts| && parts[k] == x
    ensures x !in parts[..k]
  {
    if parts[0] == x then 0
    else
      assert parts == [parts[0]] + parts[1..];
      var k := 1 + FirstIndex(parts[1..], x);
      assert parts[..k] == [parts[0]] + parts[1..][..k - 1];
      k
  }

  /** The `position` command: start position or FEN from token 2 on
      (token 1 is skipped), then every token after the first `moves`. */
  function PositionAction(parts: seq<string>): BoardAction
    requires |parts| >= 2
  {
    var hasMoves := "moves" in parts;
    var moves := if hasMoves then parts[FirstIndex(parts, "moves") + 1..] else [];
    if parts[1] == "startpos" then
      if hasMoves then ResetThenPush(moves) else Reset
    else
      var fen := Join(parts[2..], " ");
      if hasMoves then SetFenThenPush(fen, moves) else SetFen(fen)
  }

  /** The body of the loop on an already split line. `parts[0]` on an empty
      line and `parts[1]` on a bare `position` raise IndexError. */
  function Dispatch(parts: seq<string>): (r: Result<StepResult>)
    ensures r.Err? <==> parts == [] || (parts[0] == "position" && |parts| == 1)
    ensures r.Ok? ==> (r.value.stop <==> parts[0] == "quit")
    ensures r.Ok? ==> (r.value.output != [] <==> parts[0] in {"uci", "isready", "go"})
    ensures r.Ok? ==> (r.value.action.Keep? <==> parts[0] !in {"ucinewgame", "position"})
  {
    if parts == [] then Err(IndexError)
    else if parts[0] == "uci" then Ok(StepResult(["id name fernbea", "id author rwsa", "uciok"], Keep, false))
    else if parts[0] == "isready" then Ok(StepResult(["readyok"], Keep, false))
    else if parts[0] == "ucinewgame" then Ok(StepResult([], Reset, false))
    else if parts[0] == "position" then
      if |parts| < 2 then Err(IndexError) else Ok(StepResult([], PositionAction(parts), false))
    else if parts[0] == "go" then Ok(StepResult(["0000"], Keep, false))
    else if parts[0] == "quit" then Ok(StepResult([], Keep, true))
    else Ok(StepResult([], Keep, false))
  }

  /** One line read by `input()`. */
  function Step(line: string): (r: Result<StepResult>)
    ensures r.Err? <==> Blank(line) || Split(line) == ["position"]
  {
    SplitEmptyIffBlank(line);
    Dispatch(Split(line))
  }

  /** `uci` prints the name, the author and `uciok`, and changes nothing. */
  lemma UciReply(parts: seq<string>, p: Position)
    requires parts != [] && parts[0] == "uci"
    ensures Dispatch(parts).Ok?
    ensures Dispatch(parts).value.output == ["id name fernbea", "id author rwsa", "uciok"]
    ensures Apply(Dispatch(parts).value.action, p) == p && !Dispatch(parts).value.stop
  {
  }

  /** `isready` prints `readyok` and changes nothing. */
  lemma IsReadyReply(parts: seq<string>, p: Position)
    requires parts != [] && parts[0] == "isready"
    ensures Dispatch(parts).Ok?
    ensures Dispatch(parts).value.output == ["readyok"]
    ensures Apply(Dispatch(parts).value.action, p) == p && !Dispatch(parts).value.stop
  {
  }

  /** `go` prints the null move `0000` and changes nothing. */
  lemma GoReply(parts: seq<string>, p: Position)
    requires parts != [] && parts[0] == "go"
    ensures Dispatch(parts).Ok?
    ensures Dispatch(parts).value.output == ["0000"]
    ensures Apply(Dispatch(parts).value.action, p) == p && !Dispatch(parts).value.stop
  {
  }

  /** `stop` and every unrecognised command are silent no-ops. */
  lemma QuietCommands(parts: seq<string>)
    requires parts != [] && parts[0] !in {"uci", "isready", "ucinewgame", "position", "go", "quit"}
    ensures Dispatch(parts) == Ok(StepResult([], Keep, false))
  {
  }

  /** `ucinewgame` silently starts a fresh board. */
  lemma NewGameResets(parts: seq<string>, p: Position)
    requires parts != [] && parts[0] == "ucinewgame"
    ensures Dispatch(parts).Ok? && Dispatch(parts).value.output == []
    ensures Apply(Dispatch(parts).value.action, p) == Position(StartPosition, [])
  {
  }

  /** The moves `position` pushes: nothing without a `moves` token, else
      every token after the first `moves`, in order. */
  lemma PositionMoves(parts: seq<string>, p: Position)
    requires |parts| >= 2 && parts[0] == "position"
    ensures Dispatch(parts).Ok? && Dispatch(parts).value.output == []
    ensures "moves" !in parts ==> Apply(Dispatch(parts).value.action, p).pushed == []
    ensures forall k :: 0 <= k < |parts| && parts[k] == "moves" && "moves" !in parts[..k] ==>
      Apply(Dispatch(parts).value.action, p).pushed == parts[k + 1..]
  {
    if "moves" in parts {
      var f := FirstIndex(parts, "moves");
      forall k | 0 <= k < |parts| && parts[k] == "moves" && "moves" !in parts[..k]
        ensures k == f
      {
      }
    }
  }

  /** `position startpos ...` starts from a fresh board. */
  lemma PositionStartpos(parts: seq<string>, p: Position)
    requires |parts| >= 2 && parts[0] == "position" && parts[1] == "startpos"
    ensures Dispatch(parts).Ok?
    ensures Apply(Dispatch(parts).value.action, p).origin == StartPosition
  {
  }

  /** Any other `position` builds the board from tokens 2.. joined by single
      spaces: splitting that FEN argument gives those tokens back. */
  lemma PositionFen(parts: seq<string>, p: Position)
    requires |parts| >= 2 && parts[0] == "position" && parts[1] != "startpos"
    requires AllTokens(parts)
    ensures Dispatch(parts).Ok?
    ensures Apply(Dispatch(parts).value.action, p).origin.FromFen?
    ensures Apply(Dispatch(parts).value.action, p).origin.fen == Join(parts[2..], " ")
    ensures Split(Apply(Dispatch(parts).value.action, p).origin.fen) == parts[2..]
  {
    SplitJoin(parts[2..]);
  }

  /** As written, the FEN argument also swallows a `moves` tail, which is
      then pushed as well. */
  lemma PositionFenKeepsMovesTail(fen: string, move: string)
    requires IsToken(fen) && IsToken(move) && fen != "moves" && move != "moves"
    ensures Dispatch(["position", "fen", fen, "moves", move])
      == Ok(StepResult([], SetFenThenPush(fen + " moves " + move, [move]), false))
  {
    var parts := ["position", "fen", fen, "moves", move];
    assert parts[..3] == ["position", "fen", fen];
    assert "moves" !in parts[..3];
    assert FirstIndex(parts, "moves") == 3;
    assert parts[2..] == [fen, "moves", move];
    assert parts[4..] == [move];
    assert [fen, "moves", move][1..] == ["moves", move];
    assert ["moves", move][1..] == [move];
    assert Join([move], " ") == move;
    assert Join(["moves", move], " ") == "moves" + " " + move;
    assert Join([fen, "moves", move], " ") == fen + " " + Join(["moves", move], " ");
    assert fen + " " + ("moves" + " " + move) == fen + " moves " + move;
  }

  /** `ucinewgame` followed by `position startpos moves e2e4 e7e5`, however
      they are spaced, leaves a fresh board with both moves pushed and
      prints nothing. */
  lemma NewGameThenOpening(line1: string, line2: string, p: Position)
    requires Split(line1) == ["ucinewgame"]
    requires Split(line2) == ["position", "startpos", "moves", "e2e4", "e7e5"]
    ensures Run(Step, [line1, line2], p) == Trace([], Position(StartPosition, ["e2e4", "e7e5"]), InputEnded)
  {
    NewGameLine(line1);
    OpeningLine(line2);
    RunTwo(Step, line1, line2, p);
  }

  lemma NewGameLine(line: string)
    requires Split(line) == ["ucinewgame"]
    ensures Step(line) == Ok(StepResult([], Reset, false))
  {
  }

  lemma OpeningLine(line: string)
    requires Split(line) == ["position", "startpos", "moves", "e2e4", "e7e5"]
    ensures Step(line) == Ok(StepResult([], ResetThenPush(["e2e4", "e7e5"]), false))
  {
    var parts := Split(line);
    assert FirstIndex(parts, "moves") == 2 by {
      assert parts[..2] == ["position", "startpos"];
    }
    assert parts[3..] == ["e2e4", "e7e5"];
  }
}
