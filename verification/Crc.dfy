/**
  The checksum of the reader protocol (bridge_core/reader_protocol.py:48-60) and
  its reference definition: a linear feedback register over GF(2) for the
  generator x^16 + x^12 + x^5 + 1 of section 2 of ITU-T Recommendation V.41.
 */
module Crc {
  import opened BitStrings

  newtype byte = x: int | 0 <= x < 256 witness 0

  const POLYNOMIAL: nat := 0x1021
  const INITIAL: nat := 0xFFFF
  const WIDTH: nat := 16

  // ---------------------------------------------------------------- the code

  /** One turn of the inner loop. */
  function ShiftOut(crc: nat): (next: nat)
    requires crc < 0x10000
    ensures next < 0x10000
  {
    if crc / 0x8000 % 2 == 1 then
      XorWord(crc * 2 % 0x10000, POLYNOMIAL);
      Xor(crc * 2 % 0x10000, POLYNOMIAL)
    else
      crc * 2 % 0x10000
  }

  function ShiftOutN(crc: nat, n: nat): (next: nat)
    requires crc < 0x10000
    ensures next < 0x10000
    decreases n, crc
  {
    if n == 0 then crc else ShiftOutN(ShiftOut(crc), n - 1)
  }

  /** One turn of the outer loop, with the byte in the upper half of a word. */
  function Absorb(crc: nat, upper: nat): (next: nat)
    requires crc < 0x10000 && upper < 0x10000
    ensures next < 0x10000
  {
    XorWord(crc, upper);
    ShiftOutN(Xor(crc, upper), 8)
  }

  function AbsorbAll(crc: nat, data: seq<byte>): (next: nat)
    requires crc < 0x10000
    ensures next < 0x10000
    decreases |data|
  {
    if data == [] then crc else AbsorbAll(Absorb(crc, data[0] as nat * 256), data[1..])
  }

  function Checksum(data: seq<byte>): (crc: nat)
    ensures crc < 0x10000
  {
    AbsorbAll(INITIAL, data)
  }

  /** calculate_crc: both loops, updating one register. */
  method CalculateCrc(data: seq<byte>) returns (crc: nat)
    ensures crc == Checksum(data)
    ensures Bits(crc, WIDTH) == Feed(Ones(WIDTH), MessageBits(data))
  {
    crc := INITIAL;
    var i := 0;
    while i < |data|
      invariant 0 <= i <= |data|
      invariant crc < 0x10000
      invariant AbsorbAll(crc, data[i..]) == Checksum(data)
    {
      hide ShiftOutN, ShiftOut, Xor;
      assert data[i..][1..] == data[i + 1..];
      ghost var absorbed := Absorb(crc, data[i] as nat * 256);
      XorWord(crc, data[i] as nat * 256);
      crc := Xor(crc, data[i] as nat * 256);
      var j := 0;
      while j < 8
        invariant 0 <= j <= 8
        invariant crc < 0x10000
        invariant ShiftOutN(crc, 8 - j) == absorbed
      {
        ShiftOutNStep(crc, 8 - j);
        ShiftOutIs(crc);
        XorWord(crc * 2 % 0x10000, POLYNOMIAL);
        if crc / 0x8000 % 2 == 1 {
          crc := Xor(crc * 2 % 0x10000, POLYNOMIAL);
        } else {
          crc := crc * 2 % 0x10000;
        }
        j := j + 1;
      }
      ShiftOutNZero(crc);
      i := i + 1;
    }
    ChecksumIsRegister(data);
  }

  lemma ShiftOutNStep(crc: nat, n: nat)
    requires crc < 0x10000 && n > 0
    ensures ShiftOutN(crc, n) == ShiftOutN(ShiftOut(crc), n - 1)
  {
  }

  lemma ShiftOutNZero(crc: nat)
    requires crc < 0x10000
    ensures ShiftOutN(crc, 0) == crc
  {
  }

  lemma ShiftOutIs(crc: nat)
    requires crc < 0x10000
    ensures ShiftOut(crc) == if crc / 0x8000 % 2 == 1 then Xor(crc * 2 % 0x10000, POLYNOMIAL) else crc * 2 % 0x10000
  {
  }

  // ---------------------------------------------------- reference definition

  /** The generator without its leading term: x^12, x^5 and x^0. */
  function Generator(): (g: seq<bool>)
    ensures |g| == WIDTH
  {
    seq(WIDTH, i => i == 3 || i == 10 || i == 15)
  }

  /** Multiply the register by x modulo the generator. */
  function Clock(r: seq<bool>): (s: seq<bool>)
    requires |r| == WIDTH
    ensures |s| == WIDTH
  {
    Add(r[1..] + [false], if r[0] then Generator() else Zeros(WIDTH))
  }

  function ClockN(r: seq<bool>, n: nat): (s: seq<bool>)
    requires |r| == WIDTH
    ensures |s| == WIDTH
    decreases n, r
  {
    if n == 0 then r else ClockN(Clock(r), n - 1)
  }

  function Top(bit: bool): (s: seq<bool>)
    ensures |s| == WIDTH
  {
    [bit] + Zeros(WIDTH - 1)
  }

  /** Shift message bits into the register, one at a time. */
  function Feed(r: seq<bool>, message: seq<bool>): (s: seq<bool>)
    requires |r| == WIDTH
    ensures |s| == WIDTH
    decreases |message|
  {
    if message == [] then r else Feed(Clock(Add(r, Top(message[0]))), message[1..])
  }

  /** The bits of a byte string in transmission order. */
  function MessageBits(data: seq<byte>): (s: seq<bool>)
    ensures |s| == 8 * |data|
  {
    if data == [] then [] else Bits(data[0] as nat, 8) + MessageBits(data[1..])
  }

  // ------------------------------------------- the code computes the reference

  lemma GeneratorBits()
    ensures Bits(POLYNOMIAL, WIDTH) == Generator()
  {
    GeneratorNibbles(POLYNOMIAL, 0);
    GeneratorTerms();
  }

  lemma GeneratorNibbles(p: nat, k: nat)
    requires p == POLYNOMIAL
    ensures Bits(p, k + 16) == Bits(0, k) + Nibbles()
  {
    BitsNibble(p, k + 12);
    BitsNibble(p / 16, k + 8);
    BitsNibble(p / 256, k + 4);
    BitsNibble(p / 4096, k);
  }

  /** The four hexadecimal digits 1, 0, 2, 1. */
  function Nibbles(): (s: seq<bool>)
    ensures |s| == WIDTH
  {
    [false, false, false, true] + [false, false, false, false] + [false, false, true, false] + [false, false, false, true]
  }

  lemma GeneratorTerms()
    ensures Nibbles() == Generator()
  {
  }

  lemma {:induction false} ShiftOutIsClock(crc: nat)
    requires crc < 0x10000
    ensures Bits(ShiftOut(crc), WIDTH) == Clock(Bits(crc, WIDTH))
  {
    var doubled := crc * 2 % 0x10000;
    assert doubled == 2 * (crc % 0x8000);
    assert Bits(doubled, 16) == Bits(crc % 0x8000, 15) + [false];
    Pow2Values();
    BitsDropTop(crc, 15);
    BitsConcat(crc / 0x8000, crc % 0x8000, 1, 15);
    assert Bits(crc, 16)[1..] == Bits(crc % 0x8000, 15);
    GeneratorBits();
    BitsOfXor(doubled, POLYNOMIAL, 16);
  }

  lemma {:induction false} ShiftOutNIsClockN(crc: nat, n: nat)
    requires crc < 0x10000
    ensures Bits(ShiftOutN(crc, n), WIDTH) == ClockN(Bits(crc, WIDTH), n)
    decreases n
  {
    hide ShiftOut, Clock, Bits;
    if n > 0 {
      ShiftOutIsClock(crc);
      ShiftOutNIsClockN(ShiftOut(crc), n - 1);
    }
  }

  lemma ClockAdds(r: seq<bool>, s: seq<bool>)
    requires |r| == |s| == WIDTH
    ensures Clock(Add(r, s)) == Add(Clock(r), Clock(s))
  {
  }

  /** Shifting a zero bit out of the top only moves the register along. */
  lemma ClockZeroTop(w: seq<bool>, pad: nat)
    requires |w| + 1 + pad == WIDTH
    ensures Clock([false] + w + Zeros(pad)) == w + Zeros(pad + 1)
  {
  }

  lemma LoadSplits(r: seq<bool>, w: seq<bool>, pad: nat)
    requires w != [] && |r| == |w| + pad == WIDTH
    ensures Add(Add(r, Top(w[0])), [false] + w[1..] + Zeros(pad)) == Add(r, w + Zeros(pad))
  {
  }

  /** Feeding at most 16 bits equals adding them to the register and clocking. */
  lemma {:induction false} FeedLoads(r: seq<bool>, w: seq<bool>)
    requires |r| == WIDTH && |w| <= WIDTH
    ensures Feed(r, w) == ClockN(Add(r, w + Zeros(WIDTH - |w|)), |w|)
    decreases |w|
  {
    if w == [] {
      assert Add(r, w + Zeros(WIDTH)) == r;
    } else {
      FeedLoads(Clock(Add(r, Top(w[0]))), w[1..]);
      LoadStep(r, w, WIDTH - |w|);
    }
  }

  lemma LoadStep(r: seq<bool>, w: seq<bool>, pad: nat)
    requires w != [] && |r| == |w| + pad == WIDTH
    ensures Add(Clock(Add(r, Top(w[0]))), w[1..] + Zeros(pad + 1)) == Clock(Add(r, w + Zeros(pad)))
  {
    ClockZeroTop(w[1..], pad);
    ClockAdds(Add(r, Top(w[0])), [false] + w[1..] + Zeros(pad));
    LoadSplits(r, w, pad);
  }

  lemma {:induction false} AbsorbIsFeed(crc: nat, b: byte)
    requires crc < 0x10000
    ensures Bits(Absorb(crc, b as nat * 256), WIDTH) == Feed(Bits(crc, WIDTH), Bits(b as nat, 8))
  {
    var loaded := b as nat * 256;
    XorWord(crc, loaded);
    ShiftOutNIsClockN(Xor(crc, loaded), 8);
    BitsOfXor(crc, loaded, 16);
    UpperByte(b as nat);
    FeedLoads(Bits(crc, WIDTH), Bits(b as nat, 8));
  }

  lemma {:induction false} FeedConcat(r: seq<bool>, u: seq<bool>, v: seq<bool>)
    requires |r| == WIDTH
    ensures Feed(r, u + v) == Feed(Feed(r, u), v)
    decreases |u|
  {
    if u == [] {
      assert u + v == v;
    } else {
      assert (u + v)[1..] == u[1..] + v;
      FeedConcat(Clock(Add(r, Top(u[0]))), u[1..], v);
    }
  }

  lemma {:induction false} AbsorbAllIsFeed(crc: nat, data: seq<byte>)
    requires crc < 0x10000
    ensures Bits(AbsorbAll(crc, data), WIDTH) == Feed(Bits(crc, WIDTH), MessageBits(data))
    decreases |data|
  {
    if data != [] {
      AbsorbIsFeed(crc, data[0]);
      AbsorbAllIsFeed(Absorb(crc, data[0] as nat * 256), data[1..]);
      FeedConcat(Bits(crc, WIDTH), Bits(data[0] as nat, 8), MessageBits(data[1..]));
    }
  }

  lemma InitialIsOnes()
    ensures Bits(INITIAL, WIDTH) == Ones(WIDTH)
  {
    Pow2Values();
    BitsOfAllOnes(16);
  }

  lemma {:induction false} BitsOfAllOnes(k: nat)
    ensures Bits(Pow2(k) - 1, k) == Ones(k)
  {
    if k > 0 {
      BitsOfAllOnes(k - 1);
      assert (Pow2(k) - 1) / 2 == Pow2(k - 1) - 1;
    }
  }

  /** The byte-wise code computes the bit-serial register of the generator. */
  lemma {:induction false} ChecksumIsRegister(data: seq<byte>)
    ensures Bits(Checksum(data), WIDTH) == Feed(Ones(WIDTH), MessageBits(data))
  {
    InitialIsOnes();
    AbsorbAllIsFeed(INITIAL, data);
  }

  // ------------------------------------------------------- residue property

  /** The register after a whole frame: zero exactly for a correct checksum. */
  function Residue(data: seq<byte>): (r: seq<bool>)
    ensures |r| == WIDTH
  {
    Feed(Ones(WIDTH), MessageBits(data))
  }

  lemma {:induction false} MessageBitsConcat(a: seq<byte>, b: seq<byte>)
    ensures MessageBits(a + b) == MessageBits(a) + MessageBits(b)
  {
    if a == [] {
      assert a + b == b;
    } else {
      assert (a + b)[1..] == a[1..] + b;
      MessageBitsConcat(a[1..], b);
    }
  }

  lemma ClockNonzero(r: seq<bool>)
    requires |r| == WIDTH
    ensures IsZero(Clock(r)) <==> IsZero(r)
  {
    if IsZero(Clock(r)) {
      assert !Clock(r)[15];
      assert !r[0];
      forall i | 1 <= i < WIDTH
        ensures !r[i]
      {
        assert Clock(r)[i - 1] == r[i];
      }
    }
  }

  lemma {:induction false} ClockNNonzero(r: seq<bool>, n: nat)
    requires |r| == WIDTH
    ensures IsZero(ClockN(r, n)) <==> IsZero(r)
    decreases n
  {
    if n > 0 {
      ClockNonzero(r);
      ClockNNonzero(Clock(r), n - 1);
    }
  }

  lemma AddSelf(r: seq<bool>, s: seq<bool>)
    requires |r| == |s|
    ensures IsZero(Add(r, s)) <==> r == s
  {
    if IsZero(Add(r, s)) {
      forall i | 0 <= i < |r|
        ensures r[i] == s[i]
      {
        assert !Add(r, s)[i];
      }
    }
  }

  /** Feeding 16 bits clears the register exactly when they equal it. */
  lemma {:induction false} FeedWord(r: seq<bool>, w: seq<bool>)
    requires |r| == |w| == WIDTH
    ensures IsZero(Feed(r, w)) <==> r == w
  {
    FeedLoads(r, w);
    assert w + Zeros(0) == w;
    ClockNNonzero(Add(r, w), WIDTH);
    AddSelf(r, w);
  }

  lemma {:induction false} WordBits(hi: byte, lo: byte)
    ensures MessageBits([hi, lo]) == Bits(hi as nat * 256 + lo as nat, WIDTH)
  {
    Pow2Values();
    BitsConcat(hi as nat, lo as nat, 8, 8);
    assert [hi, lo][1..] == [lo];
    assert [lo][1..] == [];
  }

  lemma ResidueAppend(data: seq<byte>, hi: byte, lo: byte)
    ensures Residue(data + [hi, lo]) == Feed(Residue(data), Bits(hi as nat * 256 + lo as nat, WIDTH))
  {
    MessageBitsConcat(data, [hi, lo]);
    FeedConcat(Ones(WIDTH), MessageBits(data), MessageBits([hi, lo]));
    WordBits(hi, lo);
  }

  /** Appending the checksum gives residue zero, and nothing else does. */
  lemma {:induction false} ResidueZero(data: seq<byte>, hi: byte, lo: byte)
    ensures IsZero(Residue(data + [hi, lo])) <==> hi as nat * 256 + lo as nat == Checksum(data)
  {
    var sent := hi as nat * 256 + lo as nat;
    ResidueAppend(data, hi, lo);
    FeedWord(Residue(data), Bits(sent, WIDTH));
    ChecksumIsRegister(data);
    WordEqual(sent, Checksum(data));
  }

  // ------------------------------------------------------------- corruption

  /** The register is linear: differences evolve on their own. */
  lemma {:induction false} FeedAdds(r: seq<bool>, s: seq<bool>, u: seq<bool>, v: seq<bool>)
    requires |r| == |s| == WIDTH && |u| == |v|
    ensures Feed(Add(r, s), Add(u, v)) == Add(Feed(r, u), Feed(s, v))
    decreases |u|
  {
    if u != [] {
      var r', s' := Add(r, Top(u[0])), Add(s, Top(v[0]));
      assert Add(Add(r, s), Top(Add(u, v)[0])) == Add(r', s');
      ClockAdds(r', s');
      assert Add(u, v)[1..] == Add(u[1..], v[1..]);
      FeedAdds(Clock(r'), Clock(s'), u[1..], v[1..]);
    }
  }

  lemma {:induction false} FeedZeros(r: seq<bool>, n: nat)
    requires |r| == WIDTH
    ensures Feed(r, Zeros(n)) == ClockN(r, n)
    decreases n
  {
    if n > 0 {
      assert Zeros(n)[1..] == Zeros(n - 1);
      assert Add(r, Top(false)) == r;
      FeedZeros(Clock(r), n - 1);
    }
  }

  /** All differing bits lie in a window of at most 16 consecutive bits. */
  ghost predicate Burst(u: seq<bool>, v: seq<bool>, start: nat)
    requires |u| == |v|
  {
    && u != v
    && forall i :: 0 <= i < |u| && !(start <= i < start + WIDTH) ==> u[i] == v[i]
  }

  lemma {:induction false} ResidueDifference(a: seq<byte>, b: seq<byte>)
    requires |a| == |b|
    ensures Add(Residue(a), Residue(b)) == Feed(Zeros(WIDTH), Add(MessageBits(a), MessageBits(b)))
  {
    FeedAdds(Ones(WIDTH), Ones(WIDTH), MessageBits(a), MessageBits(b));
    assert Add(Ones(WIDTH), Ones(WIDTH)) == Zeros(WIDTH);
  }

  lemma WindowFeedsNonzero(w: seq<bool>, k: nat)
    requires k < |w| <= WIDTH && w[k]
    ensures !IsZero(Feed(Zeros(WIDTH), w))
  {
    FeedLoads(Zeros(WIDTH), w);
    var loaded := Add(Zeros(WIDTH), w + Zeros(WIDTH - |w|));
    assert loaded[k];
    ClockNNonzero(loaded, |w|);
  }

  lemma FeedZerosNonzero(r: seq<bool>, n: nat)
    requires |r| == WIDTH
    ensures IsZero(Feed(r, Zeros(n))) <==> IsZero(r)
  {
    FeedZeros(r, n);
    ClockNNonzero(r, n);
  }

  /** Zeros on either side of a word do not change whether it feeds to zero. */
  lemma FeedPadded(before: nat, w: seq<bool>, after: nat)
    ensures IsZero(Feed(Zeros(WIDTH), Zeros(before) + (w + Zeros(after)))) <==> IsZero(Feed(Zeros(WIDTH), w))
  {
    FeedConcat(Zeros(WIDTH), Zeros(before), w + Zeros(after));
    FeedZerosNonzero(Zeros(WIDTH), before);
    assert Feed(Zeros(WIDTH), Zeros(before)) == Zeros(WIDTH);
    FeedConcat(Zeros(WIDTH), w, Zeros(after));
    FeedZerosNonzero(Feed(Zeros(WIDTH), w), after);
  }

  lemma WindowSplits(d: seq<bool>, start: nat, till: nat)
    requires start <= till <= |d|
    requires forall i :: 0 <= i < |d| && !(start <= i < till) ==> !d[i]
    ensures d == Zeros(start) + (d[start..till] + Zeros(|d| - till))
  {
    assert d[..start] == Zeros(start);
    assert d[till..] == Zeros(|d| - till);
    assert d == d[..start] + (d[start..till] + d[till..]);
  }

  /** A nonzero difference confined to one window never feeds to zero. */
  lemma BurstFeedsNonzero(d: seq<bool>, start: nat, k: nat)
    requires k < |d| && d[k]
    requires forall i :: 0 <= i < |d| && !(start <= i < start + WIDTH) ==> !d[i]
    ensures !IsZero(Feed(Zeros(WIDTH), d))
  {
    hide Feed, IsZero;
    var till := if start + WIDTH <= |d| then start + WIDTH else |d|;
    WindowSplits(d, start, till);
    WindowFeedsNonzero(d[start..till], k - start);
    FeedPadded(start, d[start..till], |d| - till);
  }

  /** Every burst of at most 16 bits changes the residue. */
  lemma {:induction false} BurstChangesResidue(a: seq<byte>, b: seq<byte>, start: nat)
    requires |a| == |b|
    requires Burst(MessageBits(a), MessageBits(b), start)
    ensures Residue(a) != Residue(b)
  {
    var d := Add(MessageBits(a), MessageBits(b));
    ResidueDifference(a, b);
    var k :| 0 <= k < |d| && MessageBits(a)[k] != MessageBits(b)[k];
    BurstFeedsNonzero(d, start, k);
    AddSelf(Residue(a), Residue(b));
  }

  lemma {:induction false} ClockParity(r: seq<bool>)
    requires |r| == WIDTH
    ensures Parity(Clock(r)) == Parity(r)
  {
    var shifted := r[1..] + [false];
    ParityOfConcat(r[1..], [false]);
    assert [false][1..] == [];
    if r[0] {
      ParityOfAdd(shifted, Generator());
      GeneratorParity();
    } else {
      ParityOfAdd(shifted, Zeros(WIDTH));
      ParityOfZeros(WIDTH);
    }
  }

  /** The generator without its leading term has three terms. */
  lemma GeneratorParity()
    ensures Parity(Generator())
  {
    var g := Generator();
    var a, b, c := Zeros(3) + [true], Zeros(6) + [true], Zeros(4) + [true];
    assert g == a + (b + c);
    ParityOfConcat(a, b + c);
    ParityOfConcat(b, c);
    assert [true][1..] == [];
    ParityOfZeros(3);
    ParityOfConcat(Zeros(3), [true]);
    ParityOfZeros(6);
    ParityOfConcat(Zeros(6), [true]);
    ParityOfZeros(4);
    ParityOfConcat(Zeros(4), [true]);
  }

  lemma {:induction false} FeedParity(r: seq<bool>, message: seq<bool>)
    requires |r| == WIDTH
    ensures Parity(Feed(r, message)) == (Parity(r) != Parity(message))
    decreases |message|
  {
    if message != [] {
      var loaded := Add(r, Top(message[0]));
      ParityOfAdd(r, Top(message[0]));
      ParityOfZeros(WIDTH - 1);
      assert Top(message[0])[1..] == Zeros(WIDTH - 1);
      ClockParity(loaded);
      FeedParity(Clock(loaded), message[1..]);
    }
  }

  /** The checksum bits carry the parity of the message bits. */
  lemma {:induction false} ChecksumParity(data: seq<byte>)
    ensures Parity(Bits(Checksum(data), WIDTH)) == Parity(MessageBits(data))
  {
    ChecksumIsRegister(data);
    FeedParity(Ones(WIDTH), MessageBits(data));
    OnesParity();
  }

  lemma OnesParity()
    ensures !Parity(Ones(WIDTH))
  {
    assert Ones(WIDTH) == Ones(8) + Ones(8);
    ParityOfConcat(Ones(8), Ones(8));
  }

  /** Flipping an odd number of bits changes the residue. */
  lemma {:induction false} OddFlipsChangeResidue(a: seq<byte>, b: seq<byte>)
    requires |a| == |b|
    requires Parity(Add(MessageBits(a), MessageBits(b)))
    ensures Residue(a) != Residue(b)
  {
    ParityOfAdd(MessageBits(a), MessageBits(b));
    FeedParity(Ones(WIDTH), MessageBits(a));
    FeedParity(Ones(WIDTH), MessageBits(b));
  }

  /** The bits of byte `k` sit at positions 8k to 8k + 7. */
  lemma {:induction false} MessageBitsAt(data: seq<byte>, k: nat)
    requires k < |data|
    ensures MessageBits(data)[8 * k..8 * k + 8] == Bits(data[k] as nat, 8)
  {
    var head, tail := Bits(data[0] as nat, 8), MessageBits(data[1..]);
    if k == 0 {
      assert (head + tail)[0..8] == head;
    } else {
      MessageBitsAt(data[1..], k - 1);
      assert (head + tail)[8 * k..8 * k + 8] == tail[8 * (k - 1)..8 * (k - 1) + 8];
    }
  }

  /** Changing one byte, or two adjacent bytes, is a burst. */
  lemma {:induction false} AdjacentBytesAreBurst(a: seq<byte>, b: seq<byte>, k: nat)
    requires |a| == |b| && a != b
    requires forall i :: 0 <= i < |a| && i != k && i != k + 1 ==> a[i] == b[i]
    ensures Burst(MessageBits(a), MessageBits(b), 8 * k)
  {
    var u, v := MessageBits(a), MessageBits(b);
    forall i | 0 <= i < |u| && !(8 * k <= i < 8 * k + WIDTH)
      ensures u[i] == v[i]
    {
      var j := i / 8;
      MessageBitsAt(a, j);
      MessageBitsAt(b, j);
      assert u[i] == u[8 * j..8 * j + 8][i - 8 * j];
      assert v[i] == v[8 * j..8 * j + 8][i - 8 * j];
    }
    var j :| 0 <= j < |a| && a[j] != b[j];
    MessageBitsAt(a, j);
    MessageBitsAt(b, j);
    Pow2Values();
    if u == v {
      BitsInjective(a[j] as nat, b[j] as nat, 8);
    }
  }
}
