/** One pass of `UciHandler.loop` (fernbea/uci_handler.py), the second UCI
    front-end. It differs from `FernBeaEngine.uci_loop` in its `uci` reply,
    in stopping on `stop`, in ignoring `go` and `position`, and in letting
    `ucinewgame` carry a FEN or a move list. */
module UciHandler {
  import opened Wrappers
  import opened Tokens
  import opened Session
  import UciMain

  /** Commands the loop names only to `continue`. */
  const Ignored: set<string> := {"setoption", "go", "position", "eval", "flip", "ponderhit"}

  /** `ucinewgame`: a fresh board; with more than two tokens, token 2 either
      is `moves` (push tokens 3..) or starts a FEN made of tokens 2..;
      token 1 is never read. */
  function NewGame(parts: seq<string>): BoardAction
    requires parts != []
  {
    if |parts| > 2 then
      if parts[2] == "moves" then ResetThenPush(parts[3..])
      else SetFen(Join(parts[2..], " "))
    else Reset
  }

  /** The body of the loop on an already split line; `parts[0]` on an empty
      line raises IndexError. */
  function Dispatch(parts: seq<string>): (r: Result<StepResult>)
    ensures r.Err? <==> parts == []
    ensures r.Ok? ==> (r.value.stop <==> parts[0] in {"quit", "stop"})
    ensures r.Ok? ==> (r.value.output != [] <==> parts[0] in {"uci", "isready"})
    ensures r.Ok? ==> (r.value.action.Keep? <==> parts[0] != "ucinewgame")
  {
    if parts == [] then Err(IndexError)
    else
      var cmd := parts[0];
      if cmd == "quit" || cmd == "stop" then Ok(StepResult([], Keep, true))
      else if cmd == "uci" then Ok(StepResult(["id name fernbea", "author name rwsa", "uciok"], Keep, false))
      else if cmd == "isready" then Ok(StepResult(["readyok"], Keep, false))
      else if cmd in Ignored then Ok(StepResult([], Keep, false))
      else if cmd == "ucinewgame" then Ok(StepResult([], NewGame(parts), false))
      else Ok(StepResult([], Keep, false))
  }

  /** One line read by `input()`. */
  function Step(line: string): (r: Result<StepResult>)
    ensures r.Err? <==> Blank(line)
  {
    SplitEmptyIffBlank(line);
    Dispatch(Split(line))
  }

  /** `quit` and `stop` both leave the loop silently. */
  lemma QuitOrStop(parts: seq<string>)
    requires parts != [] && parts[0] in {"quit", "stop"}
    ensures Dispatch(parts) == Ok(StepResult([], Keep, true))
  {
  }

  /** `uci` prints the name, `author name rwsa` and `uciok`. */
  lemma UciReply(parts: seq<string>, p: Position)
    requires parts != [] && parts[0] == "uci"
    ensures Dispatch(parts).Ok?
    ensures Dispatch(parts).value.output == ["id name fernbea", "author name rwsa", "uciok"]
    ensures Apply(Dispatch(parts).value.action, p) == p && !Dispatch(parts).value.stop
  {
  }

  /** `isready` prints `readyok`. */
  lemma IsReadyReply(parts: seq<string>, p: Position)
    requires parts != [] && parts[0] == "isready"
    ensures Dispatch(parts).Ok?
    ensures Dispatch(parts).value.output == ["readyok"]
    ensures Apply(Dispatch(parts).value.action, p) == p && !Dispatch(parts).value.stop
  {
  }

  /** `setoption`, `go`, `position`, `eval`, `flip`, `ponderhit` and every
      unrecognised command print nothing and leave the board alone. */
  lemma QuietCommands(parts: seq<string>)
    requires parts != [] && parts[0] !in {"quit", "stop", "uci", "isready", "ucinewgame"}
    ensures Dispatch(parts) == Ok(StepResult([], Keep, false))
  {
  }

  /** `ucinewgame` with at most one argument just starts a fresh board. */
  lemma NewGameShort(parts: seq<string>, p: Position)
    requires 1 <= |parts| <= 2 && parts[0] == "ucinewgame"
    ensures Dispatch(parts).Ok? && Dispatch(parts).value.output == []
    ensures Apply(Dispatch(parts).value.action, p) == Position(StartPosition, [])
  {
  }

  /** `ucinewgame _ moves m1 m2 ...` pushes `m1 m2 ...` in order onto a
      fresh board. */
  lemma NewGameMoves(parts: seq<string>, p: Position)
    requires |parts| > 2 && parts[0] == "ucinewgame" && parts[2] == "moves"
    ensures Dispatch(parts).Ok? && Dispatch(parts).value.output == []
    ensures Apply(Dispatch(parts).value.action, p) == Position(StartPosition, parts[3..])
  {
  }

  /** Otherwise tokens 2.. joined by single spaces are the FEN: splitting it
      gives them back, and nothing is pushed. */
  lemma NewGameFen(parts: seq<string>, p: Position)
    requires |parts| > 2 && parts[0] == "ucinewgame" && parts[2] != "moves"
    requires AllTokens(parts)
    ensures Dispatch(parts).Ok? && Dispatch(parts).value.output == []
    ensures Apply(Dispatch(parts).value.action, p).origin.FromFen?
    ensures Apply(Dispatch(parts).value.action, p).origin.fen == Join(parts[2..], " ")
    ensures Split(Apply(Dispatch(parts).value.action, p).origin.fen) == parts[2..]
    ensures Apply(Dispatch(parts).value.action, p).pushed == []
  {
    SplitJoin(parts[2..]);
  }

  /** The two front-ends answer `uci`, `go` and `stop` differently. */
  lemma FrontEndsDiffer()
    ensures UciMain.Dispatch(["uci"]).value.output[1] == "id author rwsa"
    ensures Dispatch(["uci"]).value.output[1] == "author name rwsa"
    ensures UciMain.Dispatch(["go"]).value.output == ["0000"] && Dispatch(["go"]).value.output == []
    ensures !UciMain.Dispatch(["stop"]).value.stop && Dispatch(["stop"]).value.stop
  {
  }

  /** A handshake followed by `stop`: the loop prints the three `uci` lines
      and `readyok`, leaves the board alone and quits without reading the
      next line. */
  lemma HandshakeThenStop(line1: string, line2: string, line3: string, rest: seq<string>, p: Position)
    requires Split(line1) == ["uci"] && Split(line2) == ["isready"] && Split(line3) == ["stop"]
    ensures Run(Step, [line1, line2, line3] + rest, p)
         == Trace(["id name fernbea", "author name rwsa", "uciok", "readyok"], p, Quit)
  {
    var lines := [line1, line2, line3];
    assert lines[1..] == [line2, line3];
    assert lines[1..][1..] == [line3];
    assert Step(line3) == Ok(StepResult([], Keep, true));
    assert Run(Step, [line3], p) == Trace([], p, Quit);
    assert Step(line2) == Ok(StepResult(["readyok"], Keep, false));
    assert Run(Step, [line2, line3], p) == Trace(["readyok"], p, Quit);
    assert Run(Step, lines, p).end == Quit;
    RunIgnoresRest(Step, lines, rest, p);
  }
}
