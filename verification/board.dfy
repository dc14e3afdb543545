/** The `Board` class of fernbea/pieces.py: twelve piece sets iterated white
    first, pawn to king, and their 8 x 8 text rendering. */
module BoardRender {
  import opened Wrappers
  import opened Bits
  import opened Pieces

  /** `Board.board`: one list of piece sets per colour. */
  datatype Board = Board(rows: seq<seq<Piece>>)

  function Flatten(rows: seq<seq<Piece>>): seq<Piece>
  {
    if rows == [] then [] else rows[0] + Flatten(rows[1..])
  }

  /** `Board.__iter__`: every piece set of the first list, then the second. */
  function Iter(b: Board): seq<Piece>
  {
    Flatten(b.rows)
  }

  function ColorIndex(c: Color): int
  {
    if c == White then 0 else 1
  }

  /** The piece set `Kind(color=c, bb=None)` builds. */
  function StartPiece(c: Color, k: Kind): Piece
  {
    NewPiece(k, ColorIndex(c), None).value
  }

  /** The class-level board: white pawn .. king, then black pawn .. king,
      each built with `bb=None`. */
  function StartBoard(): Board
  {
    Board([
      seq(6, k requires 0 <= k < 6 => StartPiece(White, KindOfIndex(k))),
      seq(6, k requires 0 <= k < 6 => StartPiece(Black, KindOfIndex(k)))
    ])
  }

  /** Colour and kind of the `m`-th piece set in iteration order of the
      starting board. */
  function SetAt(m: nat): (Color, Kind)
    requires m < 12
  {
    if m < 6 then (White, KindOfIndex(m)) else (Black, KindOfIndex(m - 6))
  }

  /** The starting board iterates white pawn .. king, then black pawn ..
      king. */
  lemma StartIteration()
    ensures |Iter(StartBoard())| == 12
    ensures forall m :: 0 <= m < 12 ==> Iter(StartBoard())[m] == StartPiece(SetAt(m).0, SetAt(m).1)
  {
    var rows := StartBoard().rows;
    FlattenTwo(rows);
    var ps := Iter(StartBoard());
    forall m | 0 <= m < 12
      ensures ps[m] == StartPiece(SetAt(m).0, SetAt(m).1)
    {
      if m < 6 {
        assert ps[m] == rows[0][m];
      } else {
        assert ps[m] == rows[1][m - 6];
      }
    }
  }

  lemma FlattenTwo(rows: seq<seq<Piece>>)
    requires |rows| == 2
    ensures Flatten(rows) == rows[0] + rows[1]
  {
    assert rows[1..][1..] == [];
    assert Flatten(rows[1..]) == rows[1] + [];
  }

  lemma StartPieceBitboard(c: Color, k: Kind)
    ensures StartPiece(c, k).bb == StartBitboard(c, k)
  {
  }

  lemma StartPieceFacts(c: Color, k: Kind)
    ensures forall i: nat :: Bit(StartPiece(c, k).bb, i) <==> i in StartSquares(c, k)
    ensures StartPiece(c, k).glyph == Glyph(c, k)
  {
    StartPieceSquares(c, k);
    StartPieceGlyph(c, k);
  }

  lemma StartPieceSquares(c: Color, k: Kind)
    ensures forall i: nat :: Bit(StartPiece(c, k).bb, i) <==> i in StartSquares(c, k)
  {
    assert StartColor(ColorIndex(c)) == c;
  }

  lemma StartPieceGlyph(c: Color, k: Kind)
    ensures StartPiece(c, k).glyph == Glyph(c, k)
  {
    var color := ColorIndex(c);
    assert color % 2 == 1 <==> c == Black;
    DecodeDetermines(NewPiece(k, color, None).value.glyph, c, k);
  }

  /** The piece set that decides square `i`: the last one in iteration
      order whose bitboard has bit `i`. */
  function Owner(ps: seq<Piece>, i: nat): Option<Piece>
  {
    if ps == [] then None
    else if Bit(ps[|ps| - 1].bb, i) then Some(ps[|ps| - 1])
    else Owner(ps[..|ps| - 1], i)
  }

  /** What square `i` shows: the owner's glyph, or `.` when no set has it. */
  function CellAt(ps: seq<Piece>, i: nat): char
  {
    match Owner(ps, i)
    case None => EmptySquare
    case Some(p) => p.glyph
  }

  /** The 64 display characters: display position `p` shows square
      `63 - p`, the reversal `bb_idx_to_str_idx_table` performs. */
  function Display(ps: seq<Piece>): (g: seq<char>)
    ensures |g| == 64
  {
    seq(64, p requires 0 <= p < 64 => CellAt(ps, 63 - p))
  }

  /** `textwrap.wrap(s, n)` on a string without spaces: consecutive chunks of
      `n` characters, the last possibly shorter; no chunks for "". */
  function Wrap(s: seq<char>, n: nat): seq<seq<char>>
    requires n > 0
    decreases |s|
  {
    if s == [] then []
    else if |s| <= n then [s]
    else [s[..n]] + Wrap(s[n..], n)
  }

  /** `'\n'.join(lines)`. */
  function JoinLines(lines: seq<seq<char>>): seq<char>
  {
    if lines == [] then []
    else if |lines| == 1 then lines[0]
    else lines[0] + "\n" + JoinLines(lines[1..])
  }

  /** Adding one set at the end of the iteration changes exactly the
      squares that set has. */
  lemma CellAtSnoc(ps: seq<Piece>, k: nat, i: nat)
    requires k < |ps|
    ensures CellAt(ps[..k + 1], i) == if Bit(ps[k].bb, i) then ps[k].glyph else CellAt(ps[..k], i)
  {
    assert ps[..k + 1][..k] == ps[..k];
  }

  /** With no sets every position shows `.`. */
  lemma DisplayEmpty()
    ensures Display([]) == seq(64, _ => EmptySquare)
  {
    forall p | 0 <= p < 64
      ensures Display([])[p] == EmptySquare
    {
      assert Owner([], 63 - p) == None;
    }
  }

  /** Painting the next set in iteration order over the display of the
      sets before it gives the display of both. */
  lemma DisplayStep(ps: seq<Piece>, k: nat, painted: seq<char>)
    requires k < |ps| && |painted| == 64
    requires forall p :: 0 <= p < 64 ==>
      painted[p] == if Bit(ps[k].bb, 63 - p) then ps[k].glyph else Display(ps[..k])[p]
    ensures painted == Display(ps[..k + 1])
  {
    forall p | 0 <= p < 64
      ensures painted[p] == Display(ps[..k + 1])[p]
    {
      CellAtSnoc(ps, k, 63 - p);
    }
  }

  /** The inner loop of `Board.__str__` over a list of indices: write `g`
      at display position `63 - i` for each index `i` in turn, raising
      IndexError at the first index the 64-entry table does not have. */
  function PaintFrom(cells: seq<char>, idx: seq<nat>, g: char): Result<seq<char>>
    requires |cells| == 64
    decreases |idx|
  {
    if idx == [] then Ok(cells)
    else if idx[0] >= 64 then Err(IndexError)
    else PaintFrom(cells[63 - idx[0] := g], idx[1..], g)
  }

  /** Painting fails exactly when some index is 64 or more; otherwise a
      position shows `g` exactly when its square is among the indices. */
  lemma {:induction false} PaintFromSpec(cells: seq<char>, idx: seq<nat>, g: char)
    requires |cells| == 64
    ensures PaintFrom(cells, idx, g).Err? <==> exists i :: i in idx && i >= 64
    ensures PaintFrom(cells, idx, g).Ok? ==> |PaintFrom(cells, idx, g).value| == 64
    ensures PaintFrom(cells, idx, g).Ok? ==> forall p :: 0 <= p < 64 ==>
      PaintFrom(cells, idx, g).value[p] == if 63 - p in idx then g else cells[p]
    decreases |idx|
  {
    if idx != [] {
      assert idx == [idx[0]] + idx[1..];
      if idx[0] < 64 {
        var next := cells[63 - idx[0] := g];
        PaintFromSpec(next, idx[1..], g);
        assert forall i :: i in idx <==> i == idx[0] || i in idx[1..];
      } else {
        assert idx[0] in idx;
      }
    }
  }

  /** The inner loop on a whole set: its glyph lands exactly on its bits,
      and it fails exactly when the set does not fit in 64 bits. */
  lemma PaintScan(cells: seq<char>, q: Piece)
    requires |cells| == 64
    ensures PaintFrom(cells, Scan(q.bb), q.glyph).Err? <==> !Fits(q.bb)
    ensures PaintFrom(cells, Scan(q.bb), q.glyph).Ok? ==> |PaintFrom(cells, Scan(q.bb), q.glyph).value| == 64
    ensures PaintFrom(cells, Scan(q.bb), q.glyph).Ok? ==> forall p :: 0 <= p < 64 ==>
      PaintFrom(cells, Scan(q.bb), q.glyph).value[p] == if Bit(q.bb, 63 - p) then q.glyph else cells[p]
  {
    PaintFromSpec(cells, Scan(q.bb), q.glyph);
    ScanMembers(q.bb);
    ScanBound(q.bb, WordBits);
  }

  /** `for i in bb_to_piece_index(piece.bb)` in `Board.__str__`: write one
      set's glyph at display position `63 - i` for every index `i`. */
  method PaintSet(cells: seq<char>, q: Piece) returns (r: Result<seq<char>>)
    requires |cells| == 64
    ensures r.Err? <==> !Fits(q.bb)
    ensures r.Ok? ==> |r.value| == 64
    ensures r.Ok? ==> forall p :: 0 <= p < 64 ==> r.value[p] == if Bit(q.bb, 63 - p) then q.glyph else cells[p]
  {
    PaintScan(cells, q);
    var idx := Scan(q.bb);
    var out := cells;
    var j := 0;
    while j < |idx|
      invariant 0 <= j <= |idx| && |out| == 64
      invariant PaintFrom(out, idx[j..], q.glyph) == PaintFrom(cells, idx, q.glyph)
    {
      var i := idx[j];
      assert idx[j..][1..] == idx[j + 1..];
      if i >= 64 {
        return Err(IndexError);
      }
      out := out[63 - i := q.glyph];
      j := j + 1;
    }
    return Ok(out);
  }

  /** `Board.__str__`: paint every set's squares in iteration order onto 64
      dots, then cut into lines of 8. A bit at index 64 or above indexes past
      the 64-entry table and raises IndexError. */
  method Render(b: Board) returns (r: Result<string>)
    ensures r.Err? <==> exists m :: 0 <= m < |Iter(b)| && !Fits(Iter(b)[m].bb)
    ensures r.Ok? ==> r.value == JoinLines(Wrap(Display(Iter(b)), 8))
  {
    var ps := Iter(b);
    var cells: seq<char> := seq(64, _ => EmptySquare);
    var k := 0;
    DisplayEmpty();
    assert ps[..0] == [];
    while k < |ps|
      invariant 0 <= k <= |ps|
      invariant forall m :: 0 <= m < k ==> Fits(ps[m].bb)
      invariant cells == Display(ps[..k])
    {
      var painted := PaintSet(cells, ps[k]);
      if painted.Err? {
        return Err(IndexError);
      }
      DisplayStep(ps, k, painted.value);
      cells, k := painted.value, k + 1;
    }
    assert ps[..k] == ps;
    r := Ok(JoinLines(Wrap(cells, 8)));
  }

  /** `wrap` cuts a 64-character string into the 8 consecutive 8-character
      lines. */
  lemma {:induction false} WrapChunks(s: seq<char>, n: nat)
    requires |s| == 8 * n
    ensures Wrap(s, 8) == seq(n, r requires 0 <= r < n => s[8 * r..8 * r + 8])
  {
    if n > 1 {
      WrapChunks(s[8..], n - 1);
      var rest := seq(n - 1, r requires 0 <= r < n - 1 => s[8..][8 * r..8 * r + 8]);
      assert Wrap(s, 8) == [s[..8]] + rest;
      forall r | 1 <= r < n
        ensures s[8..][8 * (r - 1)..8 * (r - 1) + 8] == s[8 * r..8 * r + 8]
      {
      }
    } else if n == 1 {
      assert s[..8] == s;
    }
  }

  /** Where line `r` of a joined text of 8-character lines starts. */
  function LineStart(r: nat): nat
  {
    9 * r
  }

  /** Joining 8-character lines with newlines: line `r` occupies positions
      `9 * r` to `9 * r + 7`, followed by a newline unless it is the last. */
  lemma {:induction false} JoinLinesLayout(lines: seq<seq<char>>)
    requires |lines| >= 1
    requires forall r :: 0 <= r < |lines| ==> |lines[r]| == 8
    ensures |JoinLines(lines)| == 9 * |lines| - 1
    ensures forall r :: 0 <= r < |lines| ==> JoinLines(lines)[LineStart(r)..LineStart(r) + 8] == lines[r]
    ensures forall r :: 0 <= r < |lines| - 1 ==> JoinLines(lines)[LineStart(r) + 8] == '\n'
  {
    if |lines| > 1 {
      JoinLinesLayout(lines[1..]);
      var tail := JoinLines(lines[1..]);
      var all := lines[0] + "\n" + tail;
      assert JoinLines(lines) == all;
      forall r | 0 <= r < |lines|
        ensures all[LineStart(r)..LineStart(r) + 8] == lines[r]
      {
        if r > 0 {
          assert LineStart(r) == 9 + LineStart(r - 1);
          assert lines[1..][r - 1] == lines[r];
          assert all[LineStart(r)..LineStart(r) + 8] == tail[LineStart(r - 1)..LineStart(r - 1) + 8];
        }
      }
      forall r | 0 <= r < |lines| - 1
        ensures all[LineStart(r) + 8] == '\n'
      {
        if r > 0 {
          assert LineStart(r) == 9 + LineStart(r - 1);
        }
      }
    } else {
      assert JoinLines(lines)[0..8] == lines[0];
    }
  }

  /** The rendered board is 8 lines of 8 characters: line `r` is display
      positions `8 * r` to `8 * r + 7`. */
  lemma RenderLayout(ps: seq<Piece>)
    ensures |JoinLines(Wrap(Display(ps), 8))| == 71
    ensures forall r :: 0 <= r < 8 ==>
      JoinLines(Wrap(Display(ps), 8))[LineStart(r)..LineStart(r) + 8] == Display(ps)[8 * r..8 * r + 8]
    ensures forall r :: 0 <= r < 7 ==> JoinLines(Wrap(Display(ps), 8))[LineStart(r) + 8] == '\n'
  {
    var g := Display(ps);
    WrapChunks(g, 8);
    JoinLinesLayout(Wrap(g, 8));
  }

  /** If exactly one set has bit `i`, the square shows that set's glyph. */
  lemma {:induction false} CellAtUnique(ps: seq<Piece>, i: nat, m: nat)
    requires m < |ps| && Bit(ps[m].bb, i)
    requires forall n :: 0 <= n < |ps| && Bit(ps[n].bb, i) ==> n == m
    ensures CellAt(ps, i) == ps[m].glyph
  {
    if m < |ps| - 1 {
      var init := ps[..|ps| - 1];
      CellAtUnique(init, i, m);
    }
  }

  /** If no set has bit `i`, the square shows `.`. */
  lemma {:induction false} CellAtNone(ps: seq<Piece>, i: nat)
    requires forall n :: 0 <= n < |ps| ==> !Bit(ps[n].bb, i)
    ensures CellAt(ps, i) == EmptySquare
  {
    if ps != [] {
      CellAtNone(ps[..|ps| - 1], i);
    }
  }

  const EmptyRank: seq<char> := "........"

  function RankLine(c: Color, kinds: seq<Kind>): seq<char>
  {
    seq(|kinds|, j requires 0 <= j < |kinds| => Glyph(c, kinds[j]))
  }

  lemma SetAtIndex(c: Color, k: Kind) returns (m: nat)
    ensures m < 12 && SetAt(m) == (c, k)
    ensures forall n :: 0 <= n < 12 && SetAt(n) == (c, k) ==> n == m
  {
    m := (if c == White then 0 else 6) + KindIndex(k);
  }

  /** What square `i` shows at the start: its owner's glyph, or `.`. */
  function StartGlyph(i: nat): char
  {
    match StartOwner(i)
    case None => EmptySquare
    case Some(ck) => Glyph(ck.0, ck.1)
  }

  /** Square `i` of the starting board shows its owner's glyph, or `.`. */
  lemma StartCell(i: nat)
    requires i < 64
    ensures CellAt(Iter(StartBoard()), i) == StartGlyph(i)
  {
    StartIteration();
    var ps := Iter(StartBoard());
    forall n | 0 <= n < 12
      ensures Bit(ps[n].bb, i) <==> StartOwner(i) == Some(SetAt(n))
      ensures ps[n].glyph == Glyph(SetAt(n).0, SetAt(n).1)
    {
      StartPieceFacts(SetAt(n).0, SetAt(n).1);
      SquaresOwner(SetAt(n).0, SetAt(n).1, i);
    }
    match StartOwner(i)
    case None => CellAtNone(ps, i);
    case Some(ck) =>
      var m := SetAtIndex(ck.0, ck.1);
      CellAtUnique(ps, i, m);
  }

  /** Line `r` of the starting board, top to bottom. */
  function StartLine(r: nat): seq<char>
  {
    if r == 0 then RankLine(Black, BackRank)
    else if r == 1 then RankLine(Black, PawnRank)
    else if r < 6 then EmptyRank
    else if r == 6 then RankLine(White, PawnRank)
    else RankLine(White, BackRank)
  }

  /** Display positions `8 * r` to `8 * r + 7` of the starting board. */
  lemma StartRow(r: nat)
    requires r < 8
    ensures Display(Iter(StartBoard()))[8 * r..8 * r + 8] == StartLine(r)
  {
    var g := Display(Iter(StartBoard()));
    forall c | 0 <= c < 8
      ensures g[8 * r + c] == StartLine(r)[c]
    {
      StartCell(63 - (8 * r + c));
      StartLineGlyph(r, c);
    }
  }

  /** Line `r`, column `c` of the expected picture is display position
      `8 * r + c`, that is square `63 - (8 * r + c)`. */
  lemma StartLineGlyph(r: nat, c: nat)
    requires r < 8 && c < 8
    ensures |StartLine(r)| == 8
    ensures StartLine(r)[c] == StartGlyph(63 - (8 * r + c))
  {
  }

  /** The starting board renders as black's back rank, black's pawns, four
      empty ranks, white's pawns and white's back rank, top to bottom. */
  lemma StartLines()
    ensures Wrap(Display(Iter(StartBoard())), 8) ==
      [RankLine(Black, BackRank), RankLine(Black, PawnRank), EmptyRank, EmptyRank,
       EmptyRank, EmptyRank, RankLine(White, PawnRank), RankLine(White, BackRank)]
  {
    var g := Display(Iter(StartBoard()));
    WrapChunks(g, 8);
    forall r | 0 <= r < 8
      ensures g[8 * r..8 * r + 8] == StartLine(r)
    {
      StartRow(r);
    }
    assert Wrap(g, 8) == seq(8, r requires 0 <= r < 8 => StartLine(r));
  }

  /** Every set of the starting board fits in 64 bits, so it renders. */
  lemma StartFits()
    ensures forall m :: 0 <= m < |Iter(StartBoard())| ==> Fits(Iter(StartBoard())[m].bb)
  {
    StartIteration();
    forall m | 0 <= m < 12
      ensures Fits(Iter(StartBoard())[m].bb)
    {
      var (c, k) := SetAt(m);
      StartPieceBitboard(c, k);
      StartBelow64(c, k);
    }
  }
}
