/** The deterministic masking generator of the WebSocket client: xorshift64*. */
module DetRng {

  // ── the word transition ────────────────────────────────────────────────

  function FoldRight12(x: bv64): bv64 { x ^ (x >> 12) }

  function FoldLeft25(x: bv64): bv64 { x ^ (x << 25) }

  function FoldRight27(x: bv64): bv64 { x ^ (x >> 27) }

  /** One xorshift step of the state word. */
  function Shuffle(x: bv64): bv64 {
    FoldRight27(FoldLeft25(FoldRight12(x)))
  }

  function UndoRight12(y: bv64): bv64 {
    y ^ (y >> 12) ^ (y >> 24) ^ (y >> 36) ^ (y >> 48) ^ (y >> 60)
  }

  function UndoLeft25(y: bv64): bv64 { y ^ (y << 25) ^ (y << 50) }

  function UndoRight27(y: bv64): bv64 { y ^ (y >> 27) ^ (y >> 54) }

  /** The explicit inverse of `Shuffle`. */
  function Unshuffle(y: bv64): bv64 {
    UndoRight12(UndoLeft25(UndoRight27(y)))
  }

  /** The word handed out for a state word: a wrapping product. */
  function Output(x: bv64): bv64 {
    x * 0x2545_F491_4F6C_DD1D
  }

  /** The state word after `n` steps. */
  function After(seed: bv64, n: nat): bv64 {
    if n == 0 then seed else Shuffle(After(seed, n - 1))
  }

  lemma Right12(x: bv64)
    ensures UndoRight12(FoldRight12(x)) == x && FoldRight12(UndoRight12(x)) == x
  {
    assert UndoRight12(x ^ (x >> 12)) == x;
    assert FoldRight12(x ^ (x >> 12) ^ (x >> 24) ^ (x >> 36) ^ (x >> 48) ^ (x >> 60)) == x;
  }

  lemma Left25(x: bv64)
    ensures UndoLeft25(FoldLeft25(x)) == x && FoldLeft25(UndoLeft25(x)) == x
  {
    assert UndoLeft25(x ^ (x << 25)) == x;
    assert FoldLeft25(x ^ (x << 25) ^ (x << 50)) == x;
  }

  lemma Right27(x: bv64)
    ensures UndoRight27(FoldRight27(x)) == x && FoldRight27(UndoRight27(x)) == x
  {
    assert UndoRight27(x ^ (x >> 27)) == x;
    assert FoldRight27(x ^ (x >> 27) ^ (x >> 54)) == x;
  }

  lemma Right12Is(x: bv64)
    ensures FoldRight12(x) == x ^ (x >> 12)
  {
  }

  lemma Left25Is(x: bv64)
    ensures FoldLeft25(x) == x ^ (x << 25)
  {
  }

  lemma Right27Is(x: bv64)
    ensures FoldRight27(x) == x ^ (x >> 27)
  {
  }

  lemma ShuffleFolds(x: bv64)
    ensures Shuffle(x) == FoldRight27(FoldLeft25(FoldRight12(x)))
  {
    hide FoldRight27, FoldLeft25, FoldRight12;
  }

  /** The step is the one of xorshift64*, with shifts 12, 25 and 27. */
  lemma StepIsXorshift(x: bv64) returns (a: bv64, b: bv64)
    ensures a == x ^ (x >> 12) && b == a ^ (a << 25) && Shuffle(x) == b ^ (b >> 27)
  {
    hide *;
    a := FoldRight12(x);
    b := FoldLeft25(a);
    Right12Is(x);
    Left25Is(a);
    Right27Is(b);
    ShuffleFolds(x);
  }

  /** The step is a bijection on 64-bit words: both compositions with the
      explicit inverse are the identity. */
  lemma ShuffleIsBijective(x: bv64)
    ensures Unshuffle(Shuffle(x)) == x && Shuffle(Unshuffle(x)) == x
  {
    Right12(x);
    Left25(FoldRight12(x));
    Right27(FoldLeft25(FoldRight12(x)));
    Right27(x);
    Left25(UndoRight27(x));
    Right12(UndoLeft25(UndoRight27(x)));
  }

  /** The inverse of `Output`. */
  function Unoutput(w: bv64): bv64 {
    w * 0x5907_1D96_D81E_CD35
  }

  /** The output is a bijection of the state word too: the multiplier is odd. */
  lemma OutputIsBijective(x: bv64)
    ensures Unoutput(Output(x)) == x && Output(Unoutput(x)) == x
  {
    assert Unoutput(x * 0x2545_F491_4F6C_DD1D) == x;
    assert Output(x * 0x5907_1D96_D81E_CD35) == x;
  }

  /** A run never merges with another and never reaches zero unless it starts
      there: the state after `n` steps determines the seed. */
  lemma {:induction false} RunsNeverMerge(a: bv64, b: bv64, n: nat)
    ensures After(a, n) == After(b, n) ==> a == b
  {
    if n == 0 {
    } else {
      RunsNeverMerge(a, b, n - 1);
      ShuffleIsBijective(After(a, n - 1));
      ShuffleIsBijective(After(b, n - 1));
    }
  }

  lemma {:induction false} ZeroIsIsolated(seed: bv64, n: nat)
    ensures After(seed, n) == 0 <==> seed == 0
  {
    if n == 0 {
    } else {
      ZeroIsIsolated(seed, n - 1);
      ShuffleIsBijective(After(seed, n - 1));
    }
  }

  lemma {:induction false} AfterAdds(seed: bv64, m: nat, n: nat)
    ensures After(After(seed, m), n) == After(seed, m + n)
  {
    if n == 0 {
    } else {
      AfterAdds(seed, m, n - 1);
    }
  }

  // ── the byte stream ────────────────────────────────────────────────────

  /** The lowest `n` bytes of a word, the least significant first. */
  function LeBytes(w: bv64, n: nat): (bytes: seq<bv8>)
    ensures |bytes| == n
  {
    if n == 0 then [] else [(w & 0xFF) as bv8] + LeBytes(w >> 8, n - 1)
  }

  /** Byte `i` of a word in little-endian order. */
  function LeByte(w: bv64, i: nat): bv8
    requires i < 8
  {
    LeBytes(w, 8)[i]
  }

  /** A byte below a word shifted up by one byte. */
  function Below(low: bv8, high: bv64): bv64 {
    (low as bv64) + (high << 8)
  }

  /** The word that bytes stand for: each counts 256 times the one before. */
  function FromBytes(bytes: seq<bv8>): bv64 {
    if bytes == [] then 0 else Below(bytes[0], FromBytes(bytes[1..]))
  }

  /** What is left of a word without its lowest `n` bytes. */
  function Above(w: bv64, n: nat): bv64 {
    if n == 0 then w else Above(w >> 8, n - 1)
  }

  lemma SplitLow(x: bv64)
    ensures Below((x & 0xFF) as bv8, x >> 8) == x
  {
    assert ((x & 0xFF) as bv8) as bv64 == x & 0xFF;
    assert (x & 0xFF) + ((x >> 8) << 8) == x;
  }

  lemma {:induction false} BytesRead(w: bv64, n: nat)
    requires Above(w, n) == 0
    ensures FromBytes(LeBytes(w, n)) == w
  {
    hide Below;
    if n == 0 {
    } else {
      BytesRead(w >> 8, n - 1);
      SplitLow(w);
      assert LeBytes(w, n)[1..] == LeBytes(w >> 8, n - 1);
    }
  }

  lemma {:induction false} AboveAdds(w: bv64, m: nat, n: nat)
    ensures Above(Above(w, m), n) == Above(w, m + n)
  {
    if m == 0 {
    } else {
      AboveAdds(w >> 8, m - 1, n);
    }
  }

  lemma ShiftTwice(w: bv64)
    ensures (w >> 8) >> 8 == w >> 16 && (w >> 16) >> 16 == w >> 32 && (w >> 32) >> 32 == 0
  {
  }

  lemma AboveTwo(w: bv64)
    ensures Above(w, 2) == w >> 16
  {
    ShiftTwice(w);
    var v := w >> 8;
    assert Above(w, 2) == Above(v, 1) == Above(v >> 8, 0);
  }

  lemma AboveFour(w: bv64)
    ensures Above(w, 4) == w >> 32
  {
    hide Above;
    AboveTwo(w);
    AboveTwo(w >> 16);
    AboveAdds(w, 2, 2);
    ShiftTwice(w);
  }

  lemma NothingAbove(w: bv64)
    ensures Above(w, 8) == 0
  {
    hide Above;
    AboveFour(w);
    AboveFour(w >> 32);
    AboveAdds(w, 4, 4);
    ShiftTwice(w);
  }

  /** A word is the sum of its eight bytes, each at its power of 256. */
  lemma BytesMakeWord(w: bv64)
    ensures FromBytes([LeByte(w, 0), LeByte(w, 1), LeByte(w, 2), LeByte(w, 3),
                       LeByte(w, 4), LeByte(w, 5), LeByte(w, 6), LeByte(w, 7)]) == w
  {
    hide FromBytes, LeBytes, Above;
    NothingAbove(w);
    BytesRead(w, 8);
    assert LeBytes(w, 8) == [LeByte(w, 0), LeByte(w, 1), LeByte(w, 2), LeByte(w, 3),
                             LeByte(w, 4), LeByte(w, 5), LeByte(w, 6), LeByte(w, 7)];
  }

  /** Byte `j` of the endless little-endian output stream. */
  function StreamByte(seed: bv64, j: nat): bv8 {
    LeByte(Output(After(seed, j / 8 + 1)), j % 8)
  }

  /** Number of words that cover `n` bytes. */
  function Words(n: nat): nat {
    (n + 7) / 8
  }

  /** `DetRng`. */
  class DetRng {
    var word: bv64

    constructor (seed: bv64)
      ensures word == seed
    {
      word := seed;
    }

    /** `next_u64`. */
    method NextU64() returns (w: bv64)
      modifies this
      ensures word == After(old(word), 1) && w == Output(word)
    {
      hide Output, FoldRight12, FoldLeft25, FoldRight27;
      var x := word;
      x := FoldRight12(x);
      x := FoldLeft25(x);
      x := FoldRight27(x);
      assert After(old(word), 0) == old(word);
      word := x;
      w := Output(x);
    }

    /** `next_u32`: the upper half of a word. */
    method NextU32() returns (w: bv32)
      modifies this
      ensures word == After(old(word), 1) && w as bv64 == Output(word) >> 32
    {
      hide Output;
      var x := NextU64();
      w := (x >> 32) as bv32;
    }

    /** `fill_bytes`: `dest` receives the head of the output stream; the state
        advances once per started word. */
    method FillBytes(dest: array<bv8>)
      modifies this, dest
      ensures forall j :: 0 <= j < dest.Length ==> dest[j] == StreamByte(old(word), j)
      ensures word == After(old(word), Words(dest.Length))
    {
      hide Output, LeByte, Shuffle;
      var off := 0;
      ghost var n := 0;
      while off < dest.Length
        invariant 0 <= off <= dest.Length
        invariant off == 8 * n || (off == dest.Length && n == Words(off))
        invariant word == After(old(word), n)
        invariant forall j :: 0 <= j < off ==> dest[j] == StreamByte(old(word), j)
      {
        var w := NextU64();
        AfterAdds(old(word), n, 1);
        FillChunk(dest, off, w);
        var end := if off + 8 < dest.Length then off + 8 else dest.Length;
        forall j | off <= j < end ensures dest[j] == StreamByte(old(word), j) {
          assert j / 8 == n && j % 8 == j - off;
        }
        n := n + 1;
        off := end;
      }
    }
  }

  /** One chunk: up to eight bytes of `w`, fewer at the end of `dest`. */
  method FillChunk(dest: array<bv8>, off: nat, w: bv64)
    requires off < dest.Length
    modifies dest
    ensures forall j :: off <= j < dest.Length && j < off + 8 ==> dest[j] == LeByte(w, j - off)
    ensures forall j :: 0 <= j < off ==> dest[j] == old(dest[j])
  {
    hide LeByte;
    var i := 0;
    while i < 8 && off + i < dest.Length
      invariant 0 <= i <= 8 && off + i <= dest.Length
      invariant forall j :: off <= j < off + i ==> dest[j] == LeByte(w, j - off)
      invariant forall j :: 0 <= j < off ==> dest[j] == old(dest[j])
    {
      dest[off + i] := LeByte(w, i);
      i := i + 1;
    }
  }

  /** Filling whole words and then more bytes gives the bytes of one longer
      fill: a call leaves the stream where the next one takes it up, provided
      the first length is a multiple of eight. */
  lemma FillsCompose(seed: bv64, m: nat, j: nat)
    ensures StreamByte(After(seed, Words(8 * m)), j) == StreamByte(seed, 8 * m + j)
  {
    assert Words(8 * m) == m;
    assert (8 * m + j) / 8 == m + j / 8 && (8 * m + j) % 8 == j % 8;
    AfterAdds(seed, m, j / 8 + 1);
  }

  /** After any other length the rest of the last word is discarded: the next
      fill starts at the following word boundary. */
  lemma PartialWordIsDiscarded(seed: bv64, n: nat, j: nat)
    ensures StreamByte(After(seed, Words(n)), j) == StreamByte(seed, 8 * Words(n) + j)
  {
    FillsCompose(seed, Words(n), j);
    assert Words(8 * Words(n)) == Words(n);
  }
}
