/** Piece kinds, colours, the starting bitboards, the glyph table and the
    piece constructors of fernbea/pieces.py. */
module Pieces {
  import opened Wrappers
  import opened Bits

  datatype Color = White | Black

  datatype Kind = Pawn | Knight | Bishop | Rook | Queen | King

  /** The module constants `PAWN = 0` .. `KING = 5`. */
  function KindIndex(k: Kind): (r: nat)
    ensures r < 6
  {
    match k
    case Pawn => 0
    case Knight => 1
    case Bishop => 2
    case Rook => 3
    case Queen => 4
    case King => 5
  }

  /** White starting bitboards; fernbea/pieces.py writes them as base-2 strings:
      "11111111" "00000000", "01000010", "00100100", "10000001", "00010000",
      "00001000". */
  const PawnWhiteStart: nat := 0xFF00
  const KnightWhiteStart: nat := 0x42
  const BishopWhiteStart: nat := 0x24
  const RookWhiteStart: nat := 0x81
  const QueenWhiteStart: nat := 0x10
  const KingWhiteStart: nat := 0x08

  /** Black pawns are the white pawns shifted left by 40, the other black
      pieces the white ones shifted left by 56. */
  const PawnBlackStart: nat := Shl(PawnWhiteStart, 40)
  const KnightBlackStart: nat := Shl(KnightWhiteStart, 56)
  const BishopBlackStart: nat := Shl(BishopWhiteStart, 56)
  const RookBlackStart: nat := Shl(RookWhiteStart, 56)
  const QueenBlackStart: nat := Shl(QueenWhiteStart, 56)
  const KingBlackStart: nat := Shl(KingWhiteStart, 56)

  function StartBitboard(c: Color, k: Kind): nat
  {
    match (c, k)
    case (White, Pawn) => PawnWhiteStart
    case (White, Knight) => KnightWhiteStart
    case (White, Bishop) => BishopWhiteStart
    case (White, Rook) => RookWhiteStart
    case (White, Queen) => QueenWhiteStart
    case (White, King) => KingWhiteStart
    case (Black, Pawn) => PawnBlackStart
    case (Black, Knight) => KnightBlackStart
    case (Black, Bishop) => BishopBlackStart
    case (Black, Rook) => RookBlackStart
    case (Black, Queen) => QueenBlackStart
    case (Black, King) => KingBlackStart
  }

  /** `PIECE_TABLE`: row 0 is used for white, row 1 for black, columns in
      `KindIndex` order. */
  const PieceTable: seq<seq<char>> := [
    ['\U{265F}', '\U{265E}', '\U{265D}', '\U{265C}', '\U{265B}', '\U{265A}'],
    ['\U{2659}', '\U{2658}', '\U{2657}', '\U{2656}', '\U{2655}', '\U{2654}']
  ]

  /** The character used for empty squares when rendering. */
  const EmptySquare: char := '.'

  function Glyph(c: Color, k: Kind): char
  {
    PieceTable[if c == White then 0 else 1][KindIndex(k)]
  }

  /** Reads a glyph back by code point: `U+265A..U+265F` are the row-0
      glyphs (king down to pawn), `U+2654..U+2659` the row-1 glyphs. */
  function DecodeGlyph(ch: char): Option<(Color, Kind)>
  {
    var code := ch as int;
    if 0x265A <= code <= 0x265F then Some((White, KindOfIndex(0x265F - code)))
    else if 0x2654 <= code <= 0x2659 then Some((Black, KindOfIndex(0x2659 - code)))
    else None
  }

  function KindOfIndex(i: nat): Kind
    requires i < 6
  {
    [Pawn, Knight, Bishop, Rook, Queen, King][i]
  }

  /** The twelve glyphs are pairwise distinct and differ from the empty
      square: each decodes back to its own colour and kind. */
  lemma GlyphDecodes(c: Color, k: Kind)
    ensures DecodeGlyph(Glyph(c, k)) == Some((c, k))
    ensures Glyph(c, k) != EmptySquare
  {
  }

  lemma TableRowDecodes(row: nat, k: Kind)
    requires row < 2
    ensures DecodeGlyph(PieceTable[row][KindIndex(k)]) == Some((if row == 0 then White else Black, k))
  {
    GlyphDecodes(if row == 0 then White else Black, k);
  }

  /** A glyph is determined by what it decodes to. */
  lemma DecodeDetermines(ch: char, c: Color, k: Kind)
    requires DecodeGlyph(ch) == Some((c, k))
    ensures ch == Glyph(c, k)
  {
    GlyphDecodes(c, k);
    assert ch as int == Glyph(c, k) as int;
  }

  lemma EmptySquareDecodes()
    ensures DecodeGlyph(EmptySquare) == None
  {
  }

  /** A piece set: the colour as the caller passed it (Python accepts any
      integer or boolean), its bitboard and its glyph (`uni_rep`). */
  datatype Piece = Piece(color: int, bb: int, glyph: char)

  /** The colour whose starting bitboard a constructor picks when `bb` is
      `None`: any truthy colour means black. */
  function StartColor(color: int): Color
  {
    if color != 0 then Black else White
  }

  /** The `Pawn`, `Knight`, `Bishop`, `Rook`, `Queen` and `King`
      constructors, keyed by kind. `PIECE_TABLE[color]` raises IndexError
      outside -2..1; negative colours index from the end of the table. */
  function NewPiece(k: Kind, color: int, bb: Option<int>): (r: Result<Piece>)
    ensures r.Ok? <==> -2 <= color <= 1
    ensures r.Ok? ==> r.value.color == color
    ensures r.Ok? && bb.Some? ==> r.value.bb == bb.value
    ensures r.Ok? && bb.None? ==> forall i: nat :: Bit(r.value.bb, i) <==> i in StartSquares(StartColor(color), k)
    ensures r.Ok? ==> DecodeGlyph(r.value.glyph) == Some((if color % 2 == 1 then Black else White, k))
  {
    var start := if bb.None? then StartBitboard(StartColor(color), k) else bb.value;
    if color < -2 || color > 1 then Err(IndexError)
    else
      var row := if color < 0 then color + 2 else color;
      assert row == 1 <==> color % 2 == 1;
      TableRowDecodes(row, k);
      StartBits(StartColor(color), k);
      Ok(Piece(color, start, PieceTable[row][KindIndex(k)]))
  }

  /** For the documented colours 0 and 1 the glyph and the starting
      bitboard agree on the colour; colour -2 picks the black starting
      bitboard but a white glyph. */
  lemma ConstructorColours(k: Kind)
    ensures NewPiece(k, 0, None).Ok? && DecodeGlyph(NewPiece(k, 0, None).value.glyph) == Some((White, k))
    ensures NewPiece(k, 0, None).value.bb == StartBitboard(White, k)
    ensures NewPiece(k, 1, None).Ok? && DecodeGlyph(NewPiece(k, 1, None).value.glyph) == Some((Black, k))
    ensures NewPiece(k, 1, None).value.bb == StartBitboard(Black, k)
    ensures NewPiece(k, -2, None).Ok? && DecodeGlyph(NewPiece(k, -2, None).value.glyph) == Some((White, k))
    ensures NewPiece(k, -2, None).value.bb == StartBitboard(Black, k)
  {
  }

  /** The squares of each starting bitboard. As the renderer lays them out,
      square 0 is h1 and square 63 is a8: white on 0..15, black on 48..63. */
  function StartSquares(c: Color, k: Kind): seq<nat>
  {
    match (c, k)
    case (White, Pawn) => [8, 9, 10, 11, 12, 13, 14, 15]
    case (White, Knight) => [1, 6]
    case (White, Bishop) => [2, 5]
    case (White, Rook) => [0, 7]
    case (White, Queen) => [4]
    case (White, King) => [3]
    case (Black, Pawn) => [48, 49, 50, 51, 52, 53, 54, 55]
    case (Black, Knight) => [57, 62]
    case (Black, Bishop) => [58, 61]
    case (Black, Rook) => [56, 63]
    case (Black, Queen) => [60]
    case (Black, King) => [59]
  }

  /** `bb_to_piece_index` of each starting bitboard lists exactly its
      squares, in ascending order. */
  lemma StartScan(c: Color, k: Kind)
    ensures Scan(StartBitboard(c, k)) == StartSquares(c, k)
  {
    if c == White {
      WhiteStartScan(k);
    } else {
      WhiteStartScan(k);
      ShiftedScan(StartBitboard(White, k), BlackShift(k), StartSquares(White, k));
      BlackIsShifted(k);
      BlackSquaresShifted(k);
    }
  }

  /** Shifting a bitboard left by `d` raises every index of its scan by
      `d`. */
  lemma ShiftedScan(w: nat, d: nat, squares: seq<nat>)
    requires Scan(w) == squares
    ensures Scan(Shl(w, d)) == Offset(squares, d)
  {
    ScanFromShl(w, d, 0);
    ScanFromOffset(w, 0, d);
  }

  /** The set bits of each starting bitboard are exactly its listed
      squares. */
  lemma StartBits(c: Color, k: Kind)
    ensures forall i: nat :: Bit(StartBitboard(c, k), i) <==> i in StartSquares(c, k)
    ensures Popcount(StartBitboard(c, k)) == |StartSquares(c, k)|
  {
    StartScan(c, k);
    ScanMembers(StartBitboard(c, k));
    ScanLength(StartBitboard(c, k));
  }

  /** How far pieces.py shifts a white starting bitboard to get black's. */
  function BlackShift(k: Kind): nat
  {
    if k == Pawn then 40 else 56
  }

  lemma BlackIsShifted(k: Kind)
    ensures StartBitboard(Black, k) == Shl(StartBitboard(White, k), BlackShift(k))
  {
  }

  lemma BlackSquaresShifted(k: Kind)
    ensures StartSquares(Black, k) == Offset(StartSquares(White, k), BlackShift(k))
  {
  }

  lemma WhiteStartScan(k: Kind)
    ensures Scan(StartBitboard(White, k)) == StartSquares(White, k)
  {
    match k
    case Pawn => WhitePawnScan();
    case Knight => WhiteKnightScan();
    case Bishop => WhiteBishopScan();
    case Rook => WhiteRookScan();
    case Queen => WhiteQueenScan();
    case King => WhiteKingScan();
  }

  /** The bit-scans of the white constants, one shift at a time. */
  lemma WhiteKnightScan()
    ensures ScanFrom(0x42, 0) == [1, 6]
  {
    ScanOdd(1, 6, []);
    ScanEven(2, 5, [6]); ScanEven(4, 4, [6]); ScanEven(8, 3, [6]); ScanEven(16, 2, [6]);
    ScanOdd(33, 1, [6]);
    ScanEven(66, 0, [1, 6]);
  }

  lemma WhiteBishopScan()
    ensures ScanFrom(0x24, 0) == [2, 5]
  {
    ScanOdd(1, 5, []);
    ScanEven(2, 4, [5]); ScanEven(4, 3, [5]);
    ScanOdd(9, 2, [5]);
    ScanEven(18, 1, [2, 5]); ScanEven(36, 0, [2, 5]);
  }

  lemma WhiteRookScan()
    ensures ScanFrom(0x81, 0) == [0, 7]
  {
    ScanOdd(1, 7, []);
    ScanEven(2, 6, [7]); ScanEven(4, 5, [7]); ScanEven(8, 4, [7]); ScanEven(16, 3, [7]);
    ScanEven(32, 2, [7]); ScanEven(64, 1, [7]);
    ScanOdd(129, 0, [7]);
  }

  lemma WhiteQueenScan()
    ensures ScanFrom(0x10, 0) == [4]
  {
    ScanOdd(1, 4, []);
    ScanEven(2, 3, [4]); ScanEven(4, 2, [4]); ScanEven(8, 1, [4]); ScanEven(16, 0, [4]);
  }

  lemma WhiteKingScan()
    ensures ScanFrom(0x08, 0) == [3]
  {
    ScanOdd(1, 3, []);
    ScanEven(2, 2, [3]); ScanEven(4, 1, [3]); ScanEven(8, 0, [3]);
  }

  /** The pawns are a byte of ones moved up one rank. */
  lemma WhitePawnScan()
    ensures ScanFrom(0xFF00, 0) == [8, 9, 10, 11, 12, 13, 14, 15]
  {
    PawnsShifted();
    ScanFromShl(0xFF, 8, 0);
    ByteScan();
  }

  lemma PawnsShifted()
    ensures Shl(0xFF, 8) == 0xFF00
  {
    assert Pow2(8) == 256;
  }

  lemma ByteScan()
    ensures ScanFrom(0xFF, 8) == [8, 9, 10, 11, 12, 13, 14, 15]
  {
    ScanOdd(0x01, 15, []);
    ScanOdd(0x03, 14, [15]);
    ScanOdd(0x07, 13, [14, 15]);
    ScanOdd(0x0F, 12, [13, 14, 15]);
    ScanOdd(0x1F, 11, [12, 13, 14, 15]);
    ScanOdd(0x3F, 10, [11, 12, 13, 14, 15]);
    ScanOdd(0x7F, 9, [10, 11, 12, 13, 14, 15]);
    ScanOdd(0xFF, 8, [9, 10, 11, 12, 13, 14, 15]);
  }

  /** How many pieces of a kind each side starts with. */
  function StartCount(k: Kind): nat
  {
    match k
    case Pawn => 8
    case Knight => 2
    case Bishop => 2
    case Rook => 2
    case Queen => 1
    case King => 1
  }

  /** Each side starts with 8 pawns, 2 knights, 2 bishops, 2 rooks, 1 queen
      and 1 king. */
  lemma StartCounts(c: Color, k: Kind)
    ensures Popcount(StartBitboard(c, k)) == StartCount(k)
  {
    StartBits(c, k);
  }

  /** No square is set in two different starting bitboards. */
  lemma StartDisjoint(c1: Color, k1: Kind, c2: Color, k2: Kind, i: nat)
    requires (c1, k1) != (c2, k2)
    ensures !(Bit(StartBitboard(c1, k1), i) && Bit(StartBitboard(c2, k2), i))
  {
    StartBit(c1, k1, i);
    StartBit(c2, k2, i);
    SquaresDisjoint(c1, k1, c2, k2, i);
  }

  /** Kinds of the back rank as the display shows them, left to right, for
      both colours. */
  const BackRank: seq<Kind> := [Rook, Knight, Bishop, Queen, King, Bishop, Knight, Rook]
  const PawnRank: seq<Kind> := [Pawn, Pawn, Pawn, Pawn, Pawn, Pawn, Pawn, Pawn]

  /** Who owns square `i` at the start: white back rank 0..7, white pawns
      8..15, black pawns 48..55, black back rank 56..63. */
  function StartOwner(i: nat): Option<(Color, Kind)>
  {
    if i < 8 then Some((White, BackRank[7 - i]))
    else if i < 16 then Some((White, Pawn))
    else if i < 48 then None
    else if i < 56 then Some((Black, Pawn))
    else if i < 64 then Some((Black, BackRank[63 - i]))
    else None
  }

  lemma SquaresOwner(c: Color, k: Kind, i: nat)
    ensures i in StartSquares(c, k) <==> StartOwner(i) == Some((c, k))
  {
  }

  lemma SquaresDisjoint(c1: Color, k1: Kind, c2: Color, k2: Kind, i: nat)
    requires (c1, k1) != (c2, k2)
    ensures !(i in StartSquares(c1, k1) && i in StartSquares(c2, k2))
  {
    SquaresOwner(c1, k1, i);
    SquaresOwner(c2, k2, i);
  }

  /** One square of a starting bitboard. */
  lemma StartBit(c: Color, k: Kind, i: nat)
    ensures Bit(StartBitboard(c, k), i) <==> i in StartSquares(c, k)
  {
    StartBits(c, k);
  }

  /** White's starting pieces cover exactly squares 0..15 and black's
      exactly 48..63. */
  lemma StartUnions(i: nat)
    ensures (exists k :: Bit(StartBitboard(White, k), i)) <==> i < 16
    ensures (exists k :: Bit(StartBitboard(Black, k), i)) <==> 48 <= i < 64
  {
    forall c, k
      ensures Bit(StartBitboard(c, k), i) <==> i in StartSquares(c, k)
    {
      StartBit(c, k, i);
    }
    SquaresUnions(i);
  }

  lemma SquaresUnions(i: nat)
    ensures (exists k :: i in StartSquares(White, k)) <==> i < 16
    ensures (exists k :: i in StartSquares(Black, k)) <==> 48 <= i < 64
  {
    if i < 16 {
      var k := if i >= 8 then Pawn else KindOfIndex([3, 1, 2, 5, 4, 2, 1, 3][i]);
      assert i in StartSquares(White, k);
    }
    if 48 <= i < 64 {
      var k := if i < 56 then Pawn else KindOfIndex([3, 1, 2, 5, 4, 2, 1, 3][i - 56]);
      assert i in StartSquares(Black, k);
    }
  }

  /** The square in the same file on the opposite rank. */
  function Mirror(i: nat): nat
    requires i < 64
  {
    (7 - i / 8) * 8 + i % 8
  }

  /** Black's starting layout is white's reflected rank for rank. */
  lemma StartMirrored(k: Kind, i: nat)
    requires i < 64
    ensures Bit(StartBitboard(Black, k), i) <==> Bit(StartBitboard(White, k), Mirror(i))
  {
    StartBit(Black, k, i);
    StartBit(White, k, Mirror(i));
    SquaresMirrored(k, i);
  }

  lemma SquaresMirrored(k: Kind, i: nat)
    requires i < 64
    ensures i in StartSquares(Black, k) <==> Mirror(i) in StartSquares(White, k)
  {
  }

  /** Every starting bitboard fits in 64 bits. */
  lemma StartBelow64(c: Color, k: Kind)
    ensures Fits(StartBitboard(c, k))
  {
    StartScan(c, k);
    SquaresBelow64(c, k);
    ScanBound(StartBitboard(c, k), WordBits);
  }

  lemma SquaresBelow64(c: Color, k: Kind)
    ensures forall i :: i in StartSquares(c, k) ==> i < 64
  {
  }
}
