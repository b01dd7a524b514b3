/**
 * `keccak256` and `getSelectorFromName` of client/src/chain/selector.ts against the sponge of FIPS
 * 202: padding of section 5.1, absorbing and squeezing of section 4, on byte strings.
 */
module Sponge {
  import opened Keccak

  type Byte = b: int | 0 <= b < 256

  /** Bytes absorbed at a time: 1088 bits. */
  const RATE := 136

  // ----- the specification ---------------------------------------------------------------------

  /** Bits of a byte string, least significant bit of each byte first. */
  function BitString(bytes: seq<Byte>): (r: seq<bool>)
    ensures |r| == 8 * |bytes|
  {
    seq(8 * |bytes|, n requires 0 <= n < 8 * |bytes| => Digit(bytes[n / 8], n % 8))
  }

  /** pad10*1: a one, the fewest zeros, a one, up to a multiple of x bits. */
  function Pad101(x: nat, m: nat): seq<bool>
    requires x > 0
  {
    [true] + Zeros((-(m as int) - 2) % x) + [true]
  }

  /** The state with a block of bits added to its first lanes. */
  function AddBlock(s: StateArray, block: seq<bool>): StateArray {
    seq(25, k requires 0 <= k < 25 => AddedLane(s, block, k))
  }

  function AddedLane(s: StateArray, block: seq<bool>, k: nat): Lane
    requires k < 25
  {
    seq(64, z requires 0 <= z < 64 => s[k][z] != (64 * k + z < |block| && block[64 * k + z]))
  }

  function Absorb(s: StateArray, bits: seq<bool>): StateArray
    decreases |bits|
  {
    if |bits| < 8 * RATE then s else Absorb(KeccakP(AddBlock(s, bits[..8 * RATE])), bits[8 * RATE..])
  }

  function Blank(): StateArray {
    seq(25, _ => Zero())
  }

  /** Byte j of the squeezed string. */
  function SqueezedByte(s: StateArray, j: nat): nat
    requires j < 200
  {
    Value(s[j / 8][8 * (j % 8)..8 * (j % 8) + 8])
  }

  /** The first n squeezed bytes as a big-endian number. */
  function Squeezed(s: StateArray, n: nat): nat
    requires n <= 200
  {
    if n == 0 then 0 else 256 * Squeezed(s, n - 1) + SqueezedByte(s, n - 1)
  }

  /** Keccak with capacity 512; its 256 bits of output fit in one block, so they are squeezed at once. */
  function Digest(bytes: seq<Byte>): nat {
    Squeezed(Absorb(Blank(), BitString(bytes) + Pad101(8 * RATE, 8 * |bytes|)), 32)
  }

  // ----- padding -------------------------------------------------------------------------------

  function PaddedLength(n: nat): (r: nat)
    ensures r > n && r % RATE == 0 && r <= n + RATE
  {
    (n + 1 + (RATE - 1)) / RATE * RATE
  }

  /** A byte with its top bit set. */
  function WithTopBit(b: Byte): Byte {
    if b >= 128 then b else b + 128
  }

  function PaddedByte(bytes: seq<Byte>, i: nat): Byte {
    if i == PaddedLength(|bytes|) - 1 then WithTopBit(LowByte(bytes, i)) else LowByte(bytes, i)
  }

  function LowByte(bytes: seq<Byte>, i: nat): Byte {
    if i < |bytes| then bytes[i] else if i == |bytes| then 0x01 else 0
  }

  function Padded(bytes: seq<Byte>): (r: seq<Byte>)
    ensures |r| == PaddedLength(|bytes|)
  {
    seq(PaddedLength(|bytes|), i requires 0 <= i < PaddedLength(|bytes|) => PaddedByte(bytes, i))
  }

  lemma SmallPowers()
    ensures Pow2(0) == 1 && Pow2(1) == 2 && Pow2(2) == 4 && Pow2(3) == 8 && Pow2(4) == 16
    ensures Pow2(5) == 32 && Pow2(6) == 64 && Pow2(7) == 128 && Pow2(8) == 256
  {
    assert Pow2(1) == 2 * Pow2(0) && Pow2(2) == 2 * Pow2(1) && Pow2(3) == 2 * Pow2(2) && Pow2(4) == 2 * Pow2(3);
    assert Pow2(5) == 2 * Pow2(4) && Pow2(6) == 2 * Pow2(5) && Pow2(7) == 2 * Pow2(6) && Pow2(8) == 2 * Pow2(7);
  }

  /** The digits of the bytes padding can put down. */
  lemma PaddingDigits(k: nat)
    requires k < 8
    ensures !Digit(0, k) && (Digit(0x01, k) <==> k == 0) && (Digit(0x80, k) <==> k == 7) && (Digit(0x81, k) <==> k == 0 || k == 7)
  {
    SmallPowers();
    hide Pow2;
    match k
    case 0 => case 1 => case 2 => case 3 => case 4 => case 5 => case 6 => case _ =>
  }

  /** The number of zeros in the padding. */
  lemma PaddingLength(n: nat)
    ensures (-(8 * n) - 2) % (8 * RATE) == 8 * (PaddedLength(n) - n) - 2
  {
    var q := PaddedLength(n) / RATE;
    var z := 8 * (PaddedLength(n) - n) - 2;
    assert PaddedLength(n) == q * RATE;
    assert -(8 * n) - 2 == z - (8 * RATE) * q;
    ModuloOf(z, 8 * RATE, q);
  }

  lemma ModuloOf(z: nat, d: nat, q: int)
    requires z < d
    ensures (z - d * q) % d == z
  {
    var a := z - d * q;
    assert a == d * (a / d) + a % d;
    GapIsZero(-q - a / d, d, a % d - z);
  }

  /** The padded bytes are the message bits followed by pad10*1. */
  lemma PaddedIsPad101(bytes: seq<Byte>)
    ensures BitString(Padded(bytes)) == BitString(bytes) + Pad101(8 * RATE, 8 * |bytes|)
  {
    var n, length := |bytes|, PaddedLength(|bytes|);
    var left, right := BitString(Padded(bytes)), BitString(bytes) + Pad101(8 * RATE, 8 * n);
    PaddingLength(n);
    assert |left| == |right|;
    forall i: nat | i < |left| ensures left[i] == right[i] {
      PaddedBit(bytes, i);
    }
  }

  lemma PaddedBit(bytes: seq<Byte>, i: nat)
    requires i < 8 * PaddedLength(|bytes|)
    ensures Digit(PaddedByte(bytes, i / 8), i % 8)
         == if i < 8 * |bytes| then Digit(bytes[i / 8], i % 8)
            else i == 8 * |bytes| || i == 8 * PaddedLength(|bytes|) - 1
  {
    PaddingDigits(i % 8);
    hide Digit, PaddedLength;
  }

  // ----- keccak256 -----------------------------------------------------------------------------

  /** The padded copy of the input. */
  method Pad(bytes: seq<Byte>) returns (padded: array<Byte>)
    ensures fresh(padded) && padded[..] == Padded(bytes)
  {
    padded := new Byte[PaddedLength(|bytes|)](_ => 0);
    for i := 0 to |bytes|
      invariant forall j: nat :: j < padded.Length ==> padded[j] == if j < i then bytes[j] else 0
    {
      padded[i] := bytes[i];
    }
    padded[|bytes|] := 0x01;
    padded[padded.Length - 1] := WithTopBit(padded[padded.Length - 1]);
    assert padded[..] == Padded(bytes);
  }

  /** The little-endian lane of eight bytes. */
  function LoadedLane(bytes: seq<Byte>, at: nat): Lane
    requires at + 8 <= |bytes|
  {
    seq(64, z requires 0 <= z < 64 => Digit(bytes[at + z / 8], z % 8))
  }

  lemma {:induction false} ByteHasEightDigits(b: nat, z: nat)
    requires b < 256 && z >= 8
    ensures !Digit(b, z)
  {
    if z == 8 {
      SmallPowers();
    } else {
      HalfDigit(b, z);
      ByteHasEightDigits(b / 2, z - 1);
    }
  }

  /** The lane while bytes b..7 have been shifted in. */
  function PartLane(bytes: seq<Byte>, at: nat, b: nat): Lane
    requires at + 8 <= |bytes| && b <= 8
  {
    seq(64, z requires 0 <= z < 64 => z < 8 * (8 - b) && Digit(bytes[at + b + z / 8], z % 8))
  }

  lemma PartLaneStep(bytes: seq<Byte>, at: nat, b: nat)
    requires at + 8 <= |bytes| && b < 8
    ensures Or(Shl(PartLane(bytes, at, b + 1), 8), LaneOf(bytes[at + b])) == PartLane(bytes, at, b)
  {
    var before, low := PartLane(bytes, at, b + 1), LaneOf(bytes[at + b]);
    forall z: nat | z < 64 ensures Or(Shl(before, 8), low)[z] == PartLane(bytes, at, b)[z] {
      hide Digit;
      if z >= 8 {
        ByteHasEightDigits(bytes[at + b], z);
        EarlierByte(at, b, z);
      } else {
        WithinByte(z);
      }
    }
  }

  lemma WithinByte(z: nat)
    requires z < 8
    ensures z / 8 == 0 && z % 8 == z
  {
  }

  lemma EarlierByte(at: nat, b: nat, z: nat)
    requires z >= 8
    ensures at + (b + 1) + (z - 8) / 8 == at + b + z / 8 && (z - 8) % 8 == z % 8
  {
  }

  method LoadLane(bytes: array<Byte>, at: nat) returns (lane: Lane)
    requires at + 8 <= bytes.Length
    ensures lane == LoadedLane(bytes[..], at)
  {
    hide Or, Shl, LaneOf, PartLane, LoadedLane;
    lane := Zero();
    PartLaneEnds(bytes[..], at);
    var b := 8;
    while b > 0
      invariant 0 <= b <= 8 && lane == PartLane(bytes[..], at, b)
    {
      b := b - 1;
      PartLaneStep(bytes[..], at, b);
      lane := Or(Shl(lane, 8), LaneOf(bytes[at + b]));
    }
  }

  lemma PartLaneEnds(bytes: seq<Byte>, at: nat)
    requires at + 8 <= |bytes|
    ensures PartLane(bytes, at, 8) == Zero() && PartLane(bytes, at, 0) == LoadedLane(bytes, at)
  {
  }

  /** One block of the padded input, at byte `off`. */
  function BlockBits(bytes: seq<Byte>, off: nat): seq<bool>
    requires off + RATE <= |bytes|
  {
    BitString(bytes)[8 * off..8 * (off + RATE)]
  }

  lemma LoadedIsBlock(bytes: seq<Byte>, off: nat, s: StateArray, i: nat)
    requires off + RATE <= |bytes| && i < 17
    ensures Xor(s[i], LoadedLane(bytes, off + i * 8)) == AddedLane(s, BlockBits(bytes, off), i)
  {
    var block := BlockBits(bytes, off);
    forall z: nat | z < 64 ensures Xor(s[i], LoadedLane(bytes, off + i * 8))[z] == AddedLane(s, block, i)[z] {
      var n := 8 * off + 64 * i + z;
      assert block[64 * i + z] == BitString(bytes)[n];
      assert n / 8 == off + i * 8 + z / 8 && n % 8 == z % 8;
    }
  }

  lemma BeyondBlock(s: StateArray, block: seq<bool>, i: nat)
    requires |block| == 8 * RATE && 17 <= i < 25
    ensures AddedLane(s, block, i) == s[i]
  {
  }

  /** The inner absorbing loop: seventeen lanes of one block. */
  method AddBlockTo(state: array<Lane>, padded: array<Byte>, off: nat)
    requires state.Length == 25 && off + RATE <= padded.Length
    modifies state
    ensures Contents(state) == AddBlock(old(Contents(state)), BlockBits(padded[..], off))
  {
    hide Xor, LoadedLane, AddedLane, BlockBits;
    ghost var s, block := Contents(state), BlockBits(padded[..], off);
    for i := 0 to RATE / 8
      invariant forall k: nat :: k < 25 ==> state[k] == if k < i then AddedLane(s, block, k) else s[k]
    {
      var lane := LoadLane(padded, off + i * 8);
      LoadedIsBlock(padded[..], off, s, i);
      state[i] := Xor(state[i], lane);
    }
    forall k: nat | 17 <= k < 25 ensures AddedLane(s, block, k) == s[k] {
      BlockLength(padded[..], off);
      BeyondBlock(s, block, k);
    }
    assert Contents(state) == AddBlock(s, block);
  }

  lemma BlockLength(bytes: seq<Byte>, off: nat)
    requires off + RATE <= |bytes|
    ensures |BlockBits(bytes, off)| == 8 * RATE
  {
  }

  /** Absorbing one more block. */
  lemma AbsorbStep(s: StateArray, bits: seq<bool>)
    requires |bits| >= 8 * RATE
    ensures Absorb(s, bits) == Absorb(KeccakP(AddBlock(s, bits[..8 * RATE])), bits[8 * RATE..])
  {
  }

  /** Eight bits of a lane. */
  lemma LaneByte(lane: Lane, b: nat)
    requires b < 8
    ensures Shr(lane, 8 * b)[..8] == lane[8 * b..8 * b + 8]
  {
  }

  /** `keccak256`: pad, absorb and squeeze 256 bits, on every byte string. */
  method Keccak256(bytes: seq<Byte>) returns (digest: nat)
    ensures digest == Digest(bytes)
  {
    hide KeccakP, AddBlock, BitString, Padded, PaddedLength, Pad101, Digit, Absorb, Value, Shr;
    var padded := Pad(bytes);
    ghost var bits := BitString(padded[..]);
    var state := new Lane[25](_ => Zero());
    assert Contents(state) == Blank();
    var off := 0;
    while off < padded.Length
      invariant off % RATE == 0 && off <= padded.Length && padded[..] == Padded(bytes)
      invariant Absorb(Contents(state), bits[8 * off..]) == Absorb(Blank(), bits)
    {
      ghost var s := Contents(state);
      AddBlockTo(state, padded, off);
      KeccakF(state);
      AbsorbStep(s, bits[8 * off..]);
      assert bits[8 * off..][..8 * RATE] == BlockBits(padded[..], off);
      assert bits[8 * off..][8 * RATE..] == bits[8 * (off + RATE)..];
      off := off + RATE;
    }
    AbsorbNothing(Contents(state), bits[8 * off..]);
    PaddedIsPad101(bytes);
    digest := Squeeze(state);
  }

  lemma AbsorbNothing(s: StateArray, bits: seq<bool>)
    requires |bits| < 8 * RATE
    ensures Absorb(s, bits) == s
  {
  }

  /** The squeezing loops: four lanes, low byte first. */
  method Squeeze(state: array<Lane>) returns (digest: nat)
    requires state.Length == 25
    ensures digest == Squeezed(Contents(state), 32)
  {
    hide Value, Shr;
    digest := 0;
    for i := 0 to 4
      invariant digest == Squeezed(Contents(state), 8 * i)
    {
      var lane := state[i];
      for b := 0 to 8
        invariant digest == Squeezed(Contents(state), 8 * i + b)
      {
        LaneByte(lane, b);
        assert (8 * i + b) / 8 == i && (8 * i + b) % 8 == b;
        digest := 256 * digest + Value(Shr(lane, 8 * b)[..8]);
      }
    }
  }

  // ----- selectors -----------------------------------------------------------------------------

  /** The low 250 bits of the digest. */
  function Selector(name: seq<Byte>): nat {
    Digest(name) % Pow2(250)
  }

  /** `getSelectorFromName` with its cache, names already encoded as bytes. */
  class Selectors {
    var cache: map<seq<Byte>, nat>

    ghost predicate Valid()
      reads this
    {
      forall name :: name in cache ==> cache[name] == Selector(name)
    }

    constructor ()
      ensures Valid()
    {
      cache := map[];
    }

    method FromName(name: seq<Byte>) returns (selector: nat)
      requires Valid()
      modifies this
      ensures Valid() && selector == Selector(name) && cache == old(cache)[name := selector]
    {
      if name in cache {
        assert cache[name := cache[name]] == cache;
        return cache[name];
      }
      var digest := Keccak256(name);
      selector := digest % Pow2(250);
      cache := cache[name := selector];
    }
  }
}
