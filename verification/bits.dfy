/** Bitboards as Python integers, and the bit-scan `bb_to_piece_index`
    (fernbea/pieces.py). Bit `i` of a bitboard is board square `i`. */
module Bits {

  function Pow2(n: nat): (r: nat)
    ensures r >= 1
  {
    if n == 0 then 1 else 2 * Pow2(n - 1)
  }

  /** Squares on the board. */
  const WordBits: nat := 64

  /** The bitboard has no bit at index 64 or above. */
  predicate Fits(bb: int)
  {
    bb < Pow2(WordBits)
  }

  /** Python's `bb << n` on a non-negative integer. */
  function Shl(bb: nat, n: nat): nat
  {
    bb * Pow2(n)
  }

  /** Python's `bb >> k` on a non-negative integer: `k` halvings. */
  function Shr(bb: nat, k: nat): nat
  {
    if k == 0 then bb else Shr(bb / 2, k - 1)
  }

  /** Bit `i` of a non-negative bitboard is set. False for every negative
      integer, unlike Python's two's-complement `bb >> i & 1`: the scan
      never reads the bits of a negative bitboard. */
  predicate Bit(bb: int, i: nat)
  {
    bb >= 0 && Shr(bb, i) % 2 == 1
  }

  /** Number of set bits of a non-negative integer. */
  function Popcount(bb: nat): nat
  {
    if bb == 0 then 0 else bb % 2 + Popcount(bb / 2)
  }

  /** Sum of `2^i` over a list of square indices. */
  function SumPow2(s: seq<nat>): nat
  {
    if s == [] then 0 else Pow2(s[0]) + SumPow2(s[1..])
  }

  predicate StrictlyAscending(s: seq<nat>)
  {
    forall j, k :: 0 <= j < k < |s| ==> s[j] < s[k]
  }

  /** What the loop of `bb_to_piece_index` still appends once it has shifted
      the bitboard down to `bb` and its counter reached `i`. */
  function ScanFrom(bb: int, i: nat): seq<nat>
    decreases if bb > 0 then bb else 0
  {
    if bb <= 0 then []
    else (if bb % 2 == 1 then [i] else []) + ScanFrom(bb / 2, i + 1)
  }

  /** The list `bb_to_piece_index(bb)` returns. */
  function Scan(bb: int): seq<nat>
  {
    ScanFrom(bb, 0)
  }

  /** `bb_to_piece_index`: test the low bit, shift right, until the value
      reaches zero; a non-positive input yields the empty list. */
  method BbToPieceIndex(bb: int) returns (indices: seq<nat>)
    ensures forall i: nat :: i in indices <==> Bit(bb, i)
    ensures StrictlyAscending(indices)
    ensures bb >= 0 ==> SumPow2(indices) == bb
    ensures bb <= 0 ==> indices == []
    ensures bb >= 0 ==> |indices| == Popcount(bb)
    ensures Fits(bb) <==> forall i :: i in indices ==> i < WordBits
    ensures indices == Scan(bb)
  {
    indices := [];
    var b := bb;
    var i: nat := 0;
    while b > 0
      invariant indices + ScanFrom(b, i) == Scan(bb)
      decreases b
    {
      if b % 2 == 1 {
        indices := indices + [i];
      }
      b := b / 2;
      i := i + 1;
    }
    assert indices + [] == indices;
    ScanSpec(bb);
  }

  /** Everything the bit-scan promises, gathered for one bitboard. */
  lemma ScanSpec(bb: int)
    ensures forall i: nat :: i in Scan(bb) <==> Bit(bb, i)
    ensures StrictlyAscending(Scan(bb))
    ensures bb >= 0 ==> SumPow2(Scan(bb)) == bb
    ensures bb <= 0 ==> Scan(bb) == []
    ensures bb >= 0 ==> |Scan(bb)| == Popcount(bb)
    ensures Fits(bb) <==> forall i :: i in Scan(bb) ==> i < WordBits
  {
    ScanMembers(bb);
    ScanAscending(bb);
    if bb >= 0 {
      ScanSum(bb);
      ScanLength(bb);
    }
    ScanBound(bb, WordBits);
  }

  lemma ShrZero(k: nat)
    ensures Shr(0, k) == 0
  {
  }

  /** The scan from counter `base` lists `base + k` exactly for the set bits
      `k`, and nothing below `base`. */
  lemma {:induction false} ScanFromMembers(bb: int, base: nat)
    ensures forall k: nat :: base + k in ScanFrom(bb, base) <==> Bit(bb, k)
    ensures forall i :: i in ScanFrom(bb, base) ==> base <= i
  {
    if bb <= 0 {
      forall k: nat
        ensures !Bit(bb, k)
      {
        if bb == 0 { ShrZero(k); }
      }
    } else {
      ScanFromMembers(bb / 2, base + 1);
      var rest := ScanFrom(bb / 2, base + 1);
      var head: seq<nat> := if bb % 2 == 1 then [base] else [];
      assert ScanFrom(bb, base) == head + rest;
      forall k: nat
        ensures base + k in ScanFrom(bb, base) <==> Bit(bb, k)
      {
        if k == 0 {
          assert base !in rest;
          assert base + k == base;
          assert Bit(bb, k) <==> bb % 2 == 1;
          assert base in head <==> bb % 2 == 1;
          assert base + k in head + rest <==> base in head;
        } else {
          assert Shr(bb, k) == Shr(bb / 2, k - 1);
          assert Bit(bb, k) <==> Bit(bb / 2, k - 1);
          assert base + k == (base + 1) + (k - 1);
          assert base + k in head + rest <==> base + k in rest;
        }
      }
    }
  }

  lemma ScanMembers(bb: int)
    ensures forall i: nat :: i in Scan(bb) <==> Bit(bb, i)
  {
    ScanFromMembers(bb, 0);
    forall i: nat ensures i in Scan(bb) <==> Bit(bb, i) {
      assert 0 + i == i;
    }
  }

  lemma {:induction false} ScanFromAscending(bb: int, base: nat)
    ensures StrictlyAscending(ScanFrom(bb, base))
    ensures forall k :: 0 <= k < |ScanFrom(bb, base)| ==> base <= ScanFrom(bb, base)[k]
  {
    if bb > 0 {
      ScanFromAscending(bb / 2, base + 1);
    }
  }

  lemma ScanAscending(bb: int)
    ensures StrictlyAscending(Scan(bb))
  {
    ScanFromAscending(bb, 0);
  }

  /** Summing `2^i` over the scan from counter `base` gives `bb << base`. */
  lemma {:induction false} ScanFromSum(bb: nat, base: nat)
    ensures SumPow2(ScanFrom(bb, base)) == Shl(bb, base)
  {
    if bb > 0 {
      var half := bb / 2;
      var rest := ScanFrom(half, base + 1);
      ScanFromSum(half, base + 1);
      ShlSplit(half, bb % 2, base);
      assert bb == 2 * half + bb % 2;
      if bb % 2 == 1 {
        ScanOdd(bb, base, rest);
        SumPow2Cons(base, rest);
      } else {
        ScanEven(bb, base, rest);
      }
    }
  }

  /** `(2h + r) << base` is `h << (base + 1)` plus the low bit's weight. */
  lemma ShlSplit(h: nat, r: nat, base: nat)
    requires r < 2
    ensures Shl(2 * h + r, base) == Shl(h, base + 1) + r * Pow2(base)
  {
    var p := Pow2(base);
    assert Pow2(base + 1) == 2 * p;
    assert (2 * h + r) * p == h * (2 * p) + r * p;
  }

  lemma SumPow2Cons(x: nat, rest: seq<nat>)
    ensures SumPow2([x] + rest) == Pow2(x) + SumPow2(rest)
  {
    assert ([x] + rest)[1..] == rest;
  }

  lemma ScanSum(bb: nat)
    ensures SumPow2(Scan(bb)) == bb
  {
    ScanFromSum(bb, 0);
  }

  lemma {:induction false} ScanFromLength(bb: nat, base: nat)
    ensures |ScanFrom(bb, base)| == Popcount(bb)
  {
    if bb > 0 {
      ScanFromLength(bb / 2, base + 1);
    }
  }

  lemma ScanLength(bb: nat)
    ensures |Scan(bb)| == Popcount(bb)
  {
    ScanFromLength(bb, 0);
  }

  /** Every index of the scan is below `base + n` exactly when `bb < 2^n`. */
  lemma {:induction false} ScanFromBound(bb: int, base: nat, n: nat)
    ensures bb < Pow2(n) <==> forall i :: i in ScanFrom(bb, base) ==> i < base + n
  {
    ScanFromMembers(bb, base);
    if bb > 0 {
      if n == 0 {
        ScanFromNonEmpty(bb, base);
        assert ScanFrom(bb, base)[0] in ScanFrom(bb, base);
      } else {
        var half := bb / 2;
        ScanFromBound(half, base + 1, n - 1);
        ScanFromMembers(half, base + 1);
        var lower := Pow2(n - 1);
        assert Pow2(n) == 2 * lower;
        assert bb < Pow2(n) <==> half < lower;
        var head: seq<nat> := if bb % 2 == 1 then [base] else [];
        assert ScanFrom(bb, base) == head + ScanFrom(half, base + 1);
        if bb < Pow2(n) {
          forall i | i in ScanFrom(bb, base)
            ensures i < base + n
          {
            assert i in head || i in ScanFrom(half, base + 1);
            if i in head {
              assert i == base;
            }
          }
        } else {
          var i :| i in ScanFrom(half, base + 1) && i >= base + n;
          assert i in head + ScanFrom(half, base + 1);
        }
      }
    }
  }

  lemma {:induction false} ScanFromNonEmpty(bb: int, base: nat)
    requires bb > 0
    ensures ScanFrom(bb, base) != []
  {
    if bb % 2 == 0 {
      ScanFromNonEmpty(bb / 2, base + 1);
    }
  }

  lemma ScanBound(bb: int, n: nat)
    ensures bb < Pow2(n) <==> forall i :: i in Scan(bb) ==> i < n
  {
    ScanFromBound(bb, 0, n);
  }

  /** One more shift doubles. */
  lemma ShlStep(x: nat, d: nat)
    ensures Shl(x, d + 1) == 2 * Shl(x, d)
    ensures x > 0 ==> Shl(x, d) > 0
  {
    assert Pow2(d + 1) == 2 * Pow2(d);
  }

  /** Shifting left by `n` moves every index of the scan up by `n`. */
  lemma {:induction false} ScanFromShl(x: nat, n: nat, base: nat)
    ensures ScanFrom(Shl(x, n), base) == ScanFrom(x, base + n)
  {
    if n > 0 && x > 0 {
      var y := Shl(x, n - 1);
      var z := Shl(x, n);
      ShlStep(x, n - 1);
      ScanFromShl(x, n - 1, base + 1);
      assert z > 0 && z / 2 == y && z % 2 == 0;
      ScanEven(z, base, ScanFrom(y, base + 1));
    }
  }

  /** Every element of `s` raised by `d`. */
  function Offset(s: seq<nat>, d: nat): seq<nat>
  {
    seq(|s|, k requires 0 <= k < |s| => s[k] + d)
  }

  /** Starting the counter `d` higher raises every index by `d`. */
  lemma {:induction false} ScanFromOffset(bb: int, base: nat, d: nat)
    ensures ScanFrom(bb, base + d) == Offset(ScanFrom(bb, base), d)
  {
    if bb > 0 {
      ScanFromOffset(bb / 2, base + 1, d);
      var rest := ScanFrom(bb / 2, base + 1);
      if bb % 2 == 1 {
        assert Offset([base] + rest, d) == [base + d] + Offset(rest, d);
      } else {
        assert [] + rest == rest;
      }
    }
  }

  /** One step of the scan on an odd value: record the counter. */
  lemma ScanOdd(bb: nat, i: nat, rest: seq<nat>)
    requires bb % 2 == 1 && ScanFrom(bb / 2, i + 1) == rest
    ensures ScanFrom(bb, i) == [i] + rest
  {
  }

  /** One step of the scan on a positive even value: just shift. */
  lemma ScanEven(bb: nat, i: nat, rest: seq<nat>)
    requires bb > 0 && bb % 2 == 0 && ScanFrom(bb / 2, i + 1) == rest
    ensures ScanFrom(bb, i) == rest
  {
  }
}
