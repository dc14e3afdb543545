# fernbea core in Dafny

fernbea is a small chess engine. It has two parts that this project models.

The first part is a bitboard board. It is in `fernbea/pieces.py`:
- Each piece set is an integer whose bit `i` marks board square `i`.
- `bb_to_piece_index` scans a bitboard for its set bits.
- Six constructors (`Pawn` .. `King`) build a set from a colour and an optional bitboard. With no bitboard, a set gets its starting squares.
- The class-level `Board` holds the twelve starting sets. It iterates white pawn .. king, then black pawn .. king.
- `Board.__str__` renders the board as eight lines of eight characters. Each character is a Unicode piece glyph or `.`.

The second part is two UCI (Universal Chess Interface) front-ends: `FernBeaEngine.uci_loop` in `fernbea/main.py` and `UciHandler.loop` in `fernbea/uci_handler.py`. Each reads a line, splits it into tokens and dispatches on the first token. The dispatch may print lines, replace or extend the python-chess board, or leave the loop. One pass of each loop is a pure function from a line to a `StepResult`. `Session.Run` folds such a step over a sequence of input lines.

Modules:
- `Wrappers` holds `Option`, and `Result` with Python's `IndexError` as the error.
- `Bits` holds bitboards and the bit-scan.
- `Pieces` holds the constants, glyph table and constructors.
- `BoardRender` holds the board, its iteration order and its rendering.
- `Tokens` holds `str.split()` and `" ".join`.
- `Session` holds board actions, the board as a history, and the loop.
- `UciMain` models `fernbea/main.py`.
- `UciHandler` models `fernbea/uci_handler.py`.

Python semantics that the model writes out:
- Bitboards are unbounded integers and may be negative; a negative bitboard scans to nothing.
- The constructors test `if color:` for truthiness, so any nonzero colour selects the black start.
- `PIECE_TABLE[color]` accepts colours -2..1 through negative indexing. Any other colour raises IndexError, which the model returns as `Err(IndexError)`.
- A bitboard bit at index 64 or above makes `__str__` index past its 64-entry table. That is an IndexError, so `Render` returns `Err`.
- `parts[0]` on a blank line raises IndexError. So does `parts[1]` on a bare `position` in `main.py`.

## Model

| member | source | states |
|---|---|---|
| Bits.BbToPieceIndex | fernbea/pieces.py:54-63 | The result lists exactly the set bits of the bitboard, strictly ascending. For a non-negative bitboard, the powers of two at the indices sum back to it and the count equals its popcount. A bitboard that is not positive gives `[]`. Every index is below 64 exactly when the bitboard is below 2^64. |
| Bits.ScanMembers | fernbea/pieces.py:58-62 | An index is produced by the scan exactly when that bit of the bitboard is set. |
| Bits.ScanAscending | fernbea/pieces.py:57-62 | The scan yields strictly increasing indices. |
| Bits.ScanSum | fernbea/pieces.py:54-63 | The bitboard is recovered as the sum of 2^i over the indices scanned. |
| Bits.ScanLength | fernbea/pieces.py:58-62 | One index per set bit. |
| Bits.ScanBound | fernbea/pieces.py:58-62 | All scanned indices are below `n` exactly when the bitboard is below 2^n. |
| Bits.ScanFromShl | fernbea/pieces.py:11 | Shifting a bitboard left by `n` (as the black constants are built) shifts the scan's starting index by `n`. |
| Pieces.GlyphDecodes | fernbea/pieces.py:36-51 | Each table glyph identifies its colour and kind uniquely, and none is the empty-square `.`. |
| Pieces.DecodeDetermines | fernbea/pieces.py:36-51 | A glyph that decodes to a colour and kind is that entry of the table, so the table is injective. |
| Pieces.EmptySquareDecodes | fernbea/pieces.py:221 | `.` is not a piece glyph. |
| Pieces.NewPiece | fernbea/pieces.py:89-188 | The constructor succeeds exactly for colours -2..1 and stores the colour. A given bitboard is kept. With `None`, the bitboard has exactly the starting squares of black for a nonzero colour and of white for zero. The glyph is the table entry of row `color` (negative rows wrapping around) for the constructed kind. |
| Pieces.ConstructorColours | fernbea/pieces.py:93-103 | Colour 0 gives white's start and glyph, and colour 1 gives black's. Colour -2 gives black's start with white's glyph. |
| Pieces.StartScan | fernbea/pieces.py:8-26 | Scanning each start constant lists its starting squares in ascending order. |
| Pieces.StartBits | fernbea/pieces.py:8-26 | Each start constant has bits set on exactly its listed squares: white pawns 8..15, knights 1 and 6, bishops 2 and 5, rooks 0 and 7, queen 4, king 3; black on the same files of ranks 7 and 8. Its popcount is the number of squares. |
| Pieces.StartCounts | fernbea/pieces.py:8-26 | Starting counts per side: 8 pawns, 2 knights, bishops and rooks, 1 queen and 1 king. |
| Pieces.StartDisjoint | fernbea/pieces.py:8-26 | No square is in two different starting sets. |
| Pieces.StartUnions | fernbea/pieces.py:8-26 | White's starting sets together cover exactly squares 0..15, and black's cover exactly 48..63. |
| Pieces.StartMirrored | fernbea/pieces.py:11-26 | Black's starting layout is white's reflected rank for rank: the same file on the opposite rank. |
| Pieces.StartBelow64 | fernbea/pieces.py:8-26 | Every start constant fits in 64 bits. |
| BoardRender.StartIteration | fernbea/pieces.py:195-216 | Iterating the starting board yields twelve sets: white pawn .. king, then black pawn .. king, each as the constructor builds it with `bb=None`. |
| BoardRender.PaintFromSpec | fernbea/pieces.py:225-226 | Writing a glyph at position `63 - i` for each `i` of a list fails exactly when some `i` is 64 or more. Otherwise position `p` holds the glyph when `63 - p` is listed and keeps its old character when it is not. |
| BoardRender.PaintScan | fernbea/pieces.py:224-226 | Writing one set's glyph over its scanned bits fails exactly when the set has a bit at 64 or above. Otherwise exactly the positions `63 - i` of its set bits change. |
| BoardRender.DisplayStep | fernbea/pieces.py:223-226 | Painting the next set over the display of the sets before it gives the display of the longer prefix, so a later set overwrites an earlier one on a shared square. |
| BoardRender.PaintSet | fernbea/pieces.py:223-226 | Painting one set writes its glyph at display position `63 - i` for each set bit `i` and leaves every other position as it was. It fails with IndexError exactly when the set has a bit at 64 or above. |
| BoardRender.Render | fernbea/pieces.py:219-227 | Rendering fails exactly when some set has a bit at 64 or above. Otherwise each display position `p` shows the glyph of the last set in iteration order with bit `63 - p`, or `.` when no set has it, cut into lines of 8 and joined by newlines. |
| BoardRender.WrapChunks | fernbea/pieces.py:227 | `wrap` cuts a 64-character board into its 8 consecutive 8-character slices. |
| BoardRender.JoinLinesLayout | fernbea/pieces.py:227 | Joining 8-character lines with newlines puts line `r` at offsets `9r .. 9r+7`, followed by a newline unless it is the last line. |
| BoardRender.RenderLayout | fernbea/pieces.py:219-227 | Any rendered board is 71 characters: 8 lines of 8 display characters separated by 7 newlines. |
| BoardRender.CellAtUnique | fernbea/pieces.py:223-226 | A square held by exactly one set shows that set's glyph. |
| BoardRender.CellAtNone | fernbea/pieces.py:221-226 | A square held by no set keeps `.`. |
| BoardRender.StartCell | fernbea/pieces.py:195-226 | On the starting board each square shows the glyph of its starting owner, or `.` on squares 16..47. |
| BoardRender.StartLines | fernbea/pieces.py:195-227 | The starting board renders top to bottom as: black back rank (rook knight bishop queen king bishop knight rook), black pawns, four empty ranks, white pawns, white back rank. |
| BoardRender.StartFits | fernbea/pieces.py:195-210 | Every set of the starting board is below 2^64, so rendering it succeeds. |
| Tokens.SplitLayout | fernbea/main.py:18 | Every line is its tokens in order, each token non-empty and free of whitespace, with a non-empty whitespace run between every two tokens and optional whitespace before the first and after the last. So the tokens are exactly the maximal whitespace-free runs of the line. |
| Tokens.LayoutSplits | fernbea/uci_handler.py:20 | Conversely, any line built from tokens and whitespace runs in that way splits into exactly those tokens, whatever mix of whitespace characters the runs hold. |
| Tokens.SplitEmptyIffBlank | fernbea/main.py:18-23 | A line splits into no tokens exactly when it is all whitespace. So `parts[0]` fails on exactly those lines. |
| Tokens.SplitJoin | fernbea/main.py:35 | Joining tokens with single spaces and splitting again gives the same tokens back. |
| Session.Apply | fernbea/main.py:29-41 | A `Keep` action leaves the board as it is. Any other action builds a new board, which starts from the initial position exactly for a reset, with or without moves. |
| Session.ReplaceForgets | fernbea/main.py:30-35 | Every action but `Keep` gives the same board whatever the board was before. |
| Session.RunIgnoresRest | fernbea/main.py:47-48 | Once the loop breaks or crashes, further input lines change neither output nor board. |
| UciMain.FirstIndex | fernbea/main.py:38 | `list.index` finds an occurrence of the token with none before it. |
| UciMain.Dispatch | fernbea/main.py:23-48 | The step raises exactly on an empty line or a bare `position`. It stops exactly on `quit`. It prints exactly on `uci`, `isready` and `go`. It changes the board exactly on `ucinewgame` and `position`. |
| UciMain.Step | fernbea/main.py:17-23 | A line fails exactly when it is blank or splits to the single token `position`. |
| UciMain.UciReply | fernbea/main.py:23-26 | `uci` prints `id name fernbea`, `id author rwsa`, `uciok` and keeps the board. |
| UciMain.IsReadyReply | fernbea/main.py:27-28 | `isready` prints `readyok` and keeps the board. |
| UciMain.GoReply | fernbea/main.py:43-45 | `go` prints the null move `0000` and keeps the board. |
| UciMain.QuietCommands | fernbea/main.py:23-48 | Any command that is none of the six handled ones prints nothing, keeps the board and continues. |
| UciMain.NewGameResets | fernbea/main.py:29-30 | `ucinewgame` gives a fresh board with no moves and prints nothing. |
| UciMain.PositionMoves | fernbea/main.py:37-41 | `position` pushes nothing without a `moves` token. Otherwise it pushes exactly the tokens after the first `moves`, in order. |
| UciMain.PositionStartpos | fernbea/main.py:32-33 | `position startpos ...` starts from the initial position. |
| UciMain.PositionFen | fernbea/main.py:34-35 | Any other `position` builds the board from a FEN string: tokens 2 onwards joined by single spaces, which splits back into exactly those tokens. |
| UciMain.PositionFenKeepsMovesTail | fernbea/main.py:34-41 | For `position fen F moves m`, the FEN argument is `F moves m` and `m` is pushed as well. |
| UciMain.NewGameThenOpening | fernbea/main.py:14-41 | `ucinewgame` followed by `position startpos moves e2e4 e7e5`, with any spacing, ends with a fresh board with those two moves pushed and no output. |
| UciHandler.Dispatch | fernbea/uci_handler.py:20-49 | The step raises exactly on an empty line. It stops exactly on `quit` or `stop`. It prints exactly on `uci` and `isready`. It changes the board exactly on `ucinewgame`. |
| UciHandler.Step | fernbea/uci_handler.py:19-21 | A line fails exactly when it is blank. |
| UciHandler.QuitOrStop | fernbea/uci_handler.py:22-23 | `quit` and `stop` leave the loop silently without touching the board. |
| UciHandler.UciReply | fernbea/uci_handler.py:24-27 | `uci` prints `id name fernbea`, `author name rwsa`, `uciok` and keeps the board. |
| UciHandler.IsReadyReply | fernbea/uci_handler.py:30-31 | `isready` prints `readyok` and keeps the board. |
| UciHandler.QuietCommands | fernbea/uci_handler.py:28-49 | `setoption`, `go`, `position`, `eval`, `flip`, `ponderhit` and unrecognised commands print nothing, keep the board and continue. |
| UciHandler.NewGameShort | fernbea/uci_handler.py:38-40 | `ucinewgame` with at most one argument gives a fresh board. |
| UciHandler.NewGameMoves | fernbea/uci_handler.py:40-43 | `ucinewgame X moves m1 ...` gives a fresh board with `m1 ...` pushed in order. |
| UciHandler.NewGameFen | fernbea/uci_handler.py:44-45 | `ucinewgame` with a third token other than `moves` builds the board from a FEN string: tokens 2 onwards joined by single spaces, which splits back into exactly those tokens. Nothing is pushed. |
| UciHandler.FrontEndsDiffer | fernbea/uci_handler.py:22-33 | The two front-ends differ on `uci` (`author name` against `id author`), on `go` (silent against `0000`) and on `stop` (stops against ignored). |
| UciHandler.HandshakeThenStop | fernbea/uci_handler.py:16-31 | For `uci`, `isready`, `stop` and any later lines, the loop prints the three `uci` lines and `readyok`, keeps the board and quits without reading further. |

## Left out

- The I/O of both loops: `input()` and `print` become the `lines` argument of `Session.Run` and the `output` field of a step. Running out of input (EOFError) is the `InputEnded` end of a run.
- python-chess: the board is represented only by its history, meaning where it started and the move strings pushed since. FEN parsing, `Move.from_uci` and move legality are not modelled. Neither are the exceptions they raise on a bad FEN or an illegal move; those exceptions would end the loop.
- The base `Piece` class and `Piece.__str__`: only the six constructors are modelled. The base class's default empty glyph is never on the board.
- The board as a class attribute shared by every `Board` instance, and the aliasing that brings: `BoardRender.Board` is a value.
- BoardRender.Render: `textwrap.wrap` is modelled as fixed chunks of 8 characters. This is what it does on text without whitespace or hyphens, which covers every table glyph and `.`. A hand-made set whose glyph is whitespace or a hyphen is rendered by the chunking rule instead.
- Tokens: characters are Unicode code points. `str.isspace()` is written out as its character list; no normalisation is modelled.
- `main.py` joins every token after the second, including a `moves ...` tail, into the FEN argument. The model keeps this as written (`UciMain.PositionFenKeepsMovesTail`). What the library then does with the extra tokens is outside the model.
- A UCI session state machine (idle, ready, in game) and error replies to malformed commands: neither loop implements them. The model follows the code, so any command is accepted in any order and an empty line ends the loop with IndexError.
