/**
 * Input words and transport felts of client/src/prove/ticcmd.ts: one tic per 32-bit word, seven
 * words per felt, packed as a batch or one tic at a time.
 */
module Ticcmd {
  import opened Wrappers

  const TICS_PER_FELT := 7
  const LANE := 0x1_0000_0000

  type Word = w: int | 0 <= w < 0x1_0000_0000

  /** A raw capture; a canonical one is made of integers. */
  datatype TicCmd = TicCmd(forward: real, side: real, turn: real, buttons: real)

  // ----- commands and words --------------------------------------------------------------------

  function Trunc(x: real): int {
    if x >= 0.0 then x.Floor else -((-x).Floor)
  }

  function Clamp(value: int, lo: int, hi: int): int {
    if value < lo then lo else if value > hi then hi else value
  }

  function Quantize(c: TicCmd): TicCmd {
    TicCmd(Clamp(Trunc(c.forward), -128, 127) as real, Clamp(Trunc(c.side), -128, 127) as real,
           (Clamp(Trunc(c.turn / 256.0), -128, 127) * 256) as real, Clamp(Trunc(c.buttons), 0, 255) as real)
  }

  predicate IsCanonical(c: TicCmd) {
    Quantize(c) == c
  }

  /** Four disjoint byte lanes, so the shifts and ors are sums. */
  function EncodeCmd(c: TicCmd): Result<Word> {
    if !IsCanonical(c) then Err("ticcmd is not canonical")
    else Ok(c.buttons.Floor * 0x100_0000 + ((c.turn / 256.0).Floor + 128) * 0x1_0000
            + (c.side.Floor + 128) * 0x100 + (c.forward.Floor + 128))
  }

  /** Any integer is first reduced to 32 bits. */
  function DecodeCmd(word: int): TicCmd {
    var w := word % LANE;
    TicCmd((w % 256 - 128) as real, (w / 0x100 % 256 - 128) as real, ((w / 0x1_0000 % 256 - 128) * 256) as real,
           (w / 0x100_0000 % 256) as real)
  }

  lemma TruncOfInt(n: int)
    ensures Trunc(n as real) == n
  {
  }

  lemma TurnOfInt(n: int)
    ensures Trunc((n * 256) as real / 256.0) == n
  {
    assert (n * 256) as real / 256.0 == n as real;
  }

  lemma QuantizeIsIdempotent(c: TicCmd)
    ensures IsCanonical(Quantize(c))
  {
    TruncOfInt(Clamp(Trunc(c.forward), -128, 127));
    TruncOfInt(Clamp(Trunc(c.side), -128, 127));
    TruncOfInt(Clamp(Trunc(c.buttons), 0, 255));
    TurnOfInt(Clamp(Trunc(c.turn / 256.0), -128, 127));
    hide Trunc;
  }

  /** `n` is `x` without its fraction. */
  predicate TowardZero(x: real, n: int) {
    if x >= 0.0 then n as real <= x < (n + 1) as real else (n - 1) as real < x <= n as real
  }

  /** `q` is `x` without its fraction inside `lo..hi`, and the nearer bound outside. */
  predicate Snapped(x: real, lo: int, hi: int, q: int) {
    if x >= (hi + 1) as real then q == hi
    else if x <= (lo - 1) as real then q == lo
    else lo <= q <= hi && TowardZero(x, q)
  }

  /**
   * What `quantize` makes of any command: fields without their fraction and within their byte, the
   * turn a multiple of 256, likewise rounded towards zero and bounded.
   */
  lemma QuantizeIs(c: TicCmd) returns (forward: int, side: int, turn: int, buttons: int)
    ensures Quantize(c) == TicCmd(forward as real, side as real, (turn * 256) as real, buttons as real)
    ensures Snapped(c.forward, -128, 127, forward) && Snapped(c.side, -128, 127, side) && Snapped(c.buttons, 0, 255, buttons)
    ensures c.turn >= 32768.0 ==> turn == 127
    ensures c.turn <= -33024.0 ==> turn == -128
    ensures 0.0 <= c.turn < 32768.0 ==> 0 <= turn <= 127 && (256 * turn) as real <= c.turn < (256 * turn + 256) as real
    ensures -33024.0 < c.turn < 0.0 ==> -128 <= turn <= 0 && (256 * turn - 256) as real < c.turn <= (256 * turn) as real
  {
    forward, side := Clamp(Trunc(c.forward), -128, 127), Clamp(Trunc(c.side), -128, 127);
    turn, buttons := Clamp(Trunc(c.turn / 256.0), -128, 127), Clamp(Trunc(c.buttons), 0, 255);
    ClampedTrunc(c.forward, -128, 127);
    ClampedTrunc(c.side, -128, 127);
    ClampedTrunc(c.buttons, 0, 255);
    ClampedTrunc(c.turn / 256.0, -128, 127);
  }

  lemma ClampedTrunc(x: real, lo: int, hi: int)
    requires lo <= 0 <= hi
    ensures Snapped(x, lo, hi, Clamp(Trunc(x), lo, hi))
  {
    var n := Trunc(x);
    assert TowardZero(x, n);
  }

  /** The integers a canonical command is made of. */
  lemma CanonicalParts(c: TicCmd) returns (forward: int, side: int, turn: int, buttons: int)
    requires IsCanonical(c)
    ensures -128 <= forward <= 127 && -128 <= side <= 127 && -128 <= turn <= 127 && 0 <= buttons <= 255
    ensures c == TicCmd(forward as real, side as real, (turn * 256) as real, buttons as real)
    ensures c.forward.Floor == forward && c.side.Floor == side && (c.turn / 256.0).Floor == turn && c.buttons.Floor == buttons
  {
    hide Trunc;
    forward, side := Clamp(Trunc(c.forward), -128, 127), Clamp(Trunc(c.side), -128, 127);
    turn, buttons := Clamp(Trunc(c.turn / 256.0), -128, 127), Clamp(Trunc(c.buttons), 0, 255);
    assert (turn * 256) as real / 256.0 == turn as real;
  }

  lemma LowByte(q: nat, b: nat)
    requires b < 256
    ensures (q * 256 + b) / 256 == q && (q * 256 + b) % 256 == b
  {
  }

  lemma HighHalf(q: nat, rest: nat)
    requires rest < 0x1_0000
    ensures (q * 0x1_0000 + rest) / 0x1_0000 == q
  {
  }

  lemma TopByte(q: nat, rest: nat)
    requires rest < 0x100_0000
    ensures (q * 0x100_0000 + rest) / 0x100_0000 == q
  {
  }

  lemma SplitBytes(b0: nat, b1: nat, b2: nat, b3: nat)
    requires b0 < 256 && b1 < 256 && b2 < 256 && b3 < 256
    ensures var w := b3 * 0x100_0000 + b2 * 0x1_0000 + b1 * 0x100 + b0;
            w < LANE && w % 256 == b0 && w / 0x100 % 256 == b1 && w / 0x1_0000 % 256 == b2 && w / 0x100_0000 % 256 == b3
  {
    LowByte(b3 * 0x1_0000 + b2 * 0x100 + b1, b0);
    LowByte(b3 * 0x100 + b2, b1);
    HighHalf(b3 * 0x100 + b2, b1 * 0x100 + b0);
    LowByte(b3, b2);
    TopByte(b3, b2 * 0x1_0000 + b1 * 0x100 + b0);
    LowByte(0, b3);
  }

  lemma DecodeBytes(b0: nat, b1: nat, b2: nat, b3: nat)
    requires b0 < 256 && b1 < 256 && b2 < 256 && b3 < 256
    ensures DecodeCmd(b3 * 0x100_0000 + b2 * 0x1_0000 + b1 * 0x100 + b0)
         == TicCmd((b0 - 128) as real, (b1 - 128) as real, ((b2 - 128) * 256) as real, b3 as real)
  {
    SplitBytes(b0, b1, b2, b3);
    SmallModulo(b3 * 0x100_0000 + b2 * 0x1_0000 + b1 * 0x100 + b0);
  }

  lemma SmallModulo(w: nat)
    requires w < LANE
    ensures w % LANE == w
  {
  }

  /** Encoding loses nothing of a canonical command. */
  lemma DecodeEncode(c: TicCmd)
    requires IsCanonical(c)
    ensures EncodeCmd(c).Ok? && DecodeCmd(EncodeCmd(c).value) == c
  {
    hide Quantize, DecodeCmd;
    var forward, side, turn, buttons := CanonicalParts(c);
    DecodeBytes(forward + 128, side + 128, turn + 128, buttons);
  }

  /** Every 32-bit word is the encoding of one canonical command. */
  lemma EncodeDecode(word: Word)
    ensures EncodeCmd(DecodeCmd(word)) == Ok(word)
  {
    var b0, b1, b2, b3 := word % 256, word / 0x100 % 256, word / 0x1_0000 % 256, word / 0x100_0000 % 256;
    JoinBytes(word);
    QuantizeBytes(b0, b1, b2, b3);
    TurnFloor(b2 - 128);
    hide Quantize;
  }

  lemma JoinBytes(word: Word)
    ensures word % LANE == word
    ensures word == word / 0x100_0000 % 256 * 0x100_0000 + word / 0x1_0000 % 256 * 0x1_0000 + word / 0x100 % 256 * 0x100 + word % 256
  {
    var q1 := word / 256;
    var q2 := q1 / 256;
    SplitBytes(word % 256, q1 % 256, q2 % 256, q2 / 256);
    SmallModulo(word);
  }

  lemma TurnFloor(n: int)
    ensures ((n * 256) as real / 256.0).Floor == n
  {
    assert (n * 256) as real / 256.0 == n as real;
  }

  lemma QuantizeBytes(b0: nat, b1: nat, b2: nat, b3: nat)
    requires b0 < 256 && b1 < 256 && b2 < 256 && b3 < 256
    ensures IsCanonical(TicCmd((b0 - 128) as real, (b1 - 128) as real, ((b2 - 128) * 256) as real, b3 as real))
  {
    TruncOfInt(b0 - 128);
    TruncOfInt(b1 - 128);
    TruncOfInt(b3);
    TurnOfInt(b2 - 128);
    hide Trunc;
  }

  /** The snap agrees with an arithmetic shift by eight exactly on non-negative turns and grid points. */
  lemma SnapIsShiftExactly(turn: int)
    ensures Trunc(turn as real / 256.0) == turn / 256 <==> turn >= 0 || turn % 256 == 0
  {
    var q, r := turn / 256, turn % 256;
    assert turn as real / 256.0 == q as real + r as real / 256.0;
    assert 0.0 <= r as real / 256.0 < 1.0;
  }

  /** A turn of -1 snaps to 0, where the shift gives -1. */
  lemma SnapIsNotShift()
    ensures Trunc(-1 as real / 256.0) == 0 && -1 / 256 == -1
  {
    SnapIsShiftExactly(-1);
  }

  // ----- seven words to a felt -----------------------------------------------------------------

  function Packed(words: seq<Word>): nat {
    if words == [] then 0 else words[0] + LANE * Packed(words[1..])
  }

  predicate IsWord(w: int) {
    0 <= w < LANE
  }

  predicate AllWords(words: seq<int>) {
    forall i :: 0 <= i < |words| ==> IsWord(words[i])
  }

  function Pow(n: nat): nat {
    if n == 0 then 1 else LANE * Pow(n - 1)
  }

  lemma {:induction false} PackedSnoc(words: seq<Word>, w: Word)
    ensures Packed(words + [w]) == Packed(words) + w * Pow(|words|)
  {
    if words == [] {
      assert [w][1..] == [];
    } else {
      assert (words + [w])[1..] == words[1..] + [w];
      PackedSnoc(words[1..], w);
      assert LANE * (w * Pow(|words| - 1)) == w * Pow(|words|);
    }
  }

  /** `pack7`: an error for more than seven words or for anything that is not a 32-bit word. */
  method Pack7(words: seq<int>) returns (r: Result<nat>)
    ensures r.Ok? <==> |words| <= TICS_PER_FELT && AllWords(words)
    ensures r.Ok? ==> r.value == Packed(words)
  {
    if |words| > TICS_PER_FELT { return Err("pack7 takes at most 7 words"); }
    var packed: nat, lane: nat := 0, 1;
    for i := 0 to |words|
      invariant AllWords(words[..i]) && packed == Packed(words[..i]) && lane == Pow(i)
    {
      if !IsWord(words[i]) { return Err("not a 32-bit input word"); }
      assert words[..i + 1] == words[..i] + [words[i]];
      PackedSnoc(words[..i], words[i]);
      packed := packed + words[i] * lane;
      lane := LANE * lane;
    }
    assert words[..|words|] == words;
    return Ok(packed);
  }

  function Unpacked(value: nat, count: nat): seq<Word> {
    if count == 0 then [] else [value % LANE] + Unpacked(value / LANE, count - 1)
  }

  method Unpack7(felt: nat, count: int) returns (r: Result<seq<Word>>)
    ensures r.Ok? <==> 0 <= count <= TICS_PER_FELT
    ensures r.Ok? ==> r.value == Unpacked(felt, count)
  {
    if count < 0 || count > TICS_PER_FELT { return Err("count out of range"); }
    var value: nat, words: seq<Word> := felt, [];
    for i := 0 to count
      invariant words + Unpacked(value, count - i) == Unpacked(felt, count)
    {
      assert words + Unpacked(value, count - i) == (words + [value % LANE]) + Unpacked(value / LANE, count - i - 1);
      words := words + [value % LANE];
      value := value / LANE;
    }
    return Ok(words);
  }

  lemma {:induction false} UnpackedLength(value: nat, count: nat)
    ensures |Unpacked(value, count)| == count
  {
    if count > 0 {
      UnpackedLength(value / LANE, count - 1);
    }
  }

  /** Unpacking gives back the words, and says nothing of what was packed above them. */
  lemma {:induction false} UnpackedPacked(words: seq<Word>, count: nat)
    requires count <= |words|
    ensures Unpacked(Packed(words), count) == words[..count]
  {
    if count > 0 {
      UnpackedPacked(words[1..], count - 1);
      LowestWord(words[0], Packed(words[1..]));
      hide Packed;
      assert words[..count] == [words[0]] + words[1..][..count - 1];
    }
  }

  lemma LowestWord(w: Word, rest: nat)
    ensures (w + LANE * rest) % LANE == w && (w + LANE * rest) / LANE == rest
  {
  }

  // ----- whole logs ----------------------------------------------------------------------------

  /** Seven words to a felt, the last group short. */
  function PackedLog(words: seq<Word>): seq<nat> {
    if words == [] then []
    else if |words| <= TICS_PER_FELT then [Packed(words)]
    else [Packed(words[..TICS_PER_FELT])] + PackedLog(words[TICS_PER_FELT..])
  }

  function MinInt(a: int, b: int): int {
    if a < b then a else b
  }

  /** `packLog`. */
  method PackLog(words: seq<int>) returns (r: Result<seq<nat>>)
    ensures r.Ok? <==> AllWords(words)
    ensures r.Ok? ==> r.value == PackedLog(words)
  {
    hide Packed;
    var felts: seq<nat>, i: nat := [], 0;
    while i < |words|
      invariant AllWords(words[..MinInt(i, |words|)])
      invariant AllWords(words) ==> felts + PackedFrom(words, i) == PackedLog(words)
    {
      var end := MinInt(i + TICS_PER_FELT, |words|);
      var group := words[i..end];
      var felt := Pack7(group);
      if felt.Err? {
        NotAllWords(words, i, end);
        return Err(felt.error);
      }
      assert words[..end] == words[..i] + group;
      if AllWords(words) {
        LogStep(words, i, end);
      }
      hide PackedFrom, PackedLog;
      felts := felts + [felt.value];
      i := i + TICS_PER_FELT;
    }
    assert words[..|words|] == words;
    return Ok(felts);
  }

  /** What is still to be packed from word i on. */
  function PackedFrom(words: seq<Word>, i: nat): seq<nat> {
    if i < |words| then PackedLog(words[i..]) else []
  }

  lemma NotAllWords(words: seq<int>, i: nat, end: nat)
    requires i <= end <= |words| && !AllWords(words[i..end])
    ensures !AllWords(words)
  {
    var k :| 0 <= k < end - i && !IsWord(words[i..end][k]);
    assert words[i + k] == words[i..end][k];
  }

  lemma LogStep(words: seq<Word>, i: nat, end: nat)
    requires i < |words| && end == MinInt(i + TICS_PER_FELT, |words|)
    ensures PackedFrom(words, i) == [Packed(words[i..end])] + PackedFrom(words, i + TICS_PER_FELT)
  {
    var rest := words[i..];
    if |rest| <= TICS_PER_FELT {
      assert rest == words[i..end];
    } else {
      assert rest[..TICS_PER_FELT] == words[i..end] && rest[TICS_PER_FELT..] == words[end..];
    }
  }

  /** Words of the felts from the first on, until `ticCount` are read or the felts run out. */
  function UnpackedLog(felts: seq<nat>, ticCount: int): seq<Word> {
    if felts == [] || ticCount <= 0 then []
    else
      Unpacked(felts[0], MinInt(TICS_PER_FELT, ticCount)) + UnpackedLog(felts[1..], ticCount - TICS_PER_FELT)
  }

  /** `unpackLog`. */
  method UnpackLog(felts: seq<nat>, ticCount: int) returns (words: seq<Word>)
    ensures words == UnpackedLog(felts, ticCount)
  {
    words := [];
    for i := 0 to |felts|
      invariant words + UnpackedLog(felts[i..], ticCount - TICS_PER_FELT * i) == UnpackedLog(felts, ticCount)
      invariant |words| == TICS_PER_FELT * i || (ticCount <= |words| && ticCount - TICS_PER_FELT * i <= 0)
    {
      var remaining := ticCount - |words|;
      if remaining <= 0 { break; }
      var group := Unpack7(felts[i], MinInt(TICS_PER_FELT, remaining));
      UnpackedLength(felts[i], MinInt(TICS_PER_FELT, remaining));
      assert felts[i..][1..] == felts[i + 1..];
      assert (words + group.value) + UnpackedLog(felts[i + 1..], remaining - TICS_PER_FELT)
          == words + (group.value + UnpackedLog(felts[i + 1..], remaining - TICS_PER_FELT));
      words := words + group.value;
    }
  }

  /** A packed log unpacks to the words it was made from. */
  lemma {:induction false} UnpackPackLog(words: seq<Word>)
    ensures UnpackedLog(PackedLog(words), |words|) == words
  {
    hide Packed, Unpacked, PackedLog;
    if words == [] {
      LogOfNone();
    } else if |words| <= TICS_PER_FELT {
      LogOfGroup(words);
      UnpackedPacked(words, |words|);
      assert words[..|words|] == words;
    } else {
      var first, rest := words[..TICS_PER_FELT], words[TICS_PER_FELT..];
      FirstGroup(words);
      UnpackedPacked(first, TICS_PER_FELT);
      UnpackPackLog(rest);
      assert PackedLog(words)[1..] == PackedLog(rest);
      assert first[..TICS_PER_FELT] == first && words == first + rest;
    }
  }

  lemma LogOfNone()
    ensures PackedLog([]) == []
  {
  }

  lemma LogOfGroup(words: seq<Word>)
    requires 0 < |words| <= TICS_PER_FELT
    ensures PackedLog(words) == [Packed(words)]
  {
  }

  lemma FirstGroup(words: seq<Word>)
    requires |words| >= TICS_PER_FELT
    ensures PackedLog(words) == [Packed(words[..TICS_PER_FELT])] + PackedLog(words[TICS_PER_FELT..])
  {
    if |words| == TICS_PER_FELT {
      assert words[..TICS_PER_FELT] == words && words[TICS_PER_FELT..] == [];
    }
  }

  // ----- the streaming packer ------------------------------------------------------------------

  /** Words in complete groups. */
  function Whole(n: nat): (r: nat)
    ensures r <= n < r + TICS_PER_FELT && r % TICS_PER_FELT == 0
  {
    n / TICS_PER_FELT * TICS_PER_FELT
  }

  /** The state of a log that has recorded exactly these words. */
  predicate Records(complete: seq<nat>, tail: seq<Word>, words: seq<Word>) {
    complete == PackedLog(words[..Whole(|words|)]) && tail == words[Whole(|words|)..]
  }

  /** A whole number of groups and a rest are packed apart. */
  lemma {:induction false} PackedLogSplit(words: seq<Word>, n: nat)
    requires n <= |words| && n % TICS_PER_FELT == 0
    ensures PackedLog(words) == PackedLog(words[..n]) + PackedLog(words[n..])
  {
    hide PackedLog, Packed;
    if n == 0 {
      LogOfNone();
      assert words[0..] == words && words[..0] == [];
    } else {
      var rest := words[TICS_PER_FELT..];
      PackedLogSplit(rest, n - TICS_PER_FELT);
      assert rest[..n - TICS_PER_FELT] == words[..n][TICS_PER_FELT..];
      assert rest[n - TICS_PER_FELT..] == words[n..];
      FirstGroup(words);
      FirstGroup(words[..n]);
      assert words[..n][..TICS_PER_FELT] == words[..TICS_PER_FELT];
    }
  }

  /** Recording one more word. */
  lemma RecordsMore(complete: seq<nat>, tail: seq<Word>, words: seq<Word>, w: Word)
    requires Records(complete, tail, words)
    ensures if |tail| + 1 == TICS_PER_FELT then Records(complete + [Packed(tail + [w])], [], words + [w])
            else Records(complete, tail + [w], words + [w])
  {
    hide PackedLog, Packed, Whole, Records;
    var n := Whole(|words|);
    WholeNext(|words|);
    WholeTail(|words|);
    RecordsAre(complete, tail, words, n);
    if |tail| + 1 == TICS_PER_FELT {
      GroupFills(words, n, w);
      RecordsAre(complete + [Packed(tail + [w])], [], words + [w], |words| + 1);
    } else {
      TailGrows(words, n, w);
      RecordsAre(complete, tail + [w], words + [w], n);
    }
  }

  lemma RecordsAre(complete: seq<nat>, tail: seq<Word>, words: seq<Word>, n: nat)
    requires n == Whole(|words|) && n <= |words|
    ensures Records(complete, tail, words) <==> complete == PackedLog(words[..n]) && tail == words[n..]
  {
    hide PackedLog, Whole;
  }

  lemma TailGrows(words: seq<Word>, n: nat, w: Word)
    requires n <= |words|
    ensures (words + [w])[..n] == words[..n] && (words + [w])[n..] == words[n..] + [w]
  {
  }

  /** The word that fills a group. */
  lemma GroupFills(words: seq<Word>, n: nat, w: Word)
    requires n <= |words| && n % TICS_PER_FELT == 0 && |words| - n + 1 == TICS_PER_FELT
    ensures var all := words + [w];
            all[..|all|] == all && all[|all|..] == [] && PackedLog(all) == PackedLog(words[..n]) + [Packed(words[n..] + [w])]
  {
    hide PackedLog, Packed;
    var all := words + [w];
    PackedLogSplit(all, n);
    assert all[..n] == words[..n] && all[n..] == words[n..] + [w];
    LogOfGroup(words[n..] + [w]);
  }

  lemma WholeTail(n: nat)
    ensures Whole(n) <= n < Whole(n) + TICS_PER_FELT && Whole(n) % TICS_PER_FELT == 0
  {
  }

  lemma WholeNext(n: nat)
    ensures Whole(n + 1) == if n - Whole(n) + 1 == TICS_PER_FELT then n + 1 else Whole(n)
  {
  }

  lemma WordIsReduced(w: Word)
    ensures w % LANE == w
  {
  }

  class TicLog {
    var complete: seq<nat>
    var tail: seq<Word>

    /** Shorter than a group, as `push` leaves it. */
    predicate Valid()
      reads this
    {
      |tail| < TICS_PER_FELT
    }

    constructor ()
      ensures Valid() && Records(complete, tail, [])
    {
      complete, tail := [], [];
    }

    /** `fromPersisted`. */
    constructor FromPersisted(complete: seq<nat>, tail: seq<Word>)
      ensures this.complete == complete && this.tail == tail
    {
      this.complete, this.tail := complete, tail;
    }

    function Length(): nat
      reads this
    {
      |complete| * TICS_PER_FELT + |tail|
    }

    /** Whatever had been recorded, the word reduced to 32 bits comes after it. */
    method Push(word: int)
      requires Valid()
      modifies this
      ensures Valid()
      ensures forall words: seq<Word> :: Records(old(complete), old(tail), words) ==>
                Records(complete, tail, words + [word % LANE])
    {
      forall words: seq<Word> | Records(complete, tail, words)
        ensures if |tail| + 1 == TICS_PER_FELT then Records(complete + [Packed(tail + [word % LANE])], [], words + [word % LANE])
                else Records(complete, tail + [word % LANE], words + [word % LANE])
      {
        RecordsMore(complete, tail, words, word % LANE);
      }
      tail := tail + [word % LANE];
      if |tail| == TICS_PER_FELT {
        var felt := Pack7(tail);
        complete := complete + [felt.value];
        tail := [];
      }
    }

    method PushCmd(c: TicCmd)
      requires Valid()
      modifies this
      ensures Valid() && EncodeCmd(Quantize(c)).Ok?
      ensures forall words: seq<Word> :: Records(old(complete), old(tail), words) ==>
                Records(complete, tail, words + [EncodeCmd(Quantize(c)).value])
    {
      hide Quantize, EncodeCmd, Records;
      QuantizeIsIdempotent(c);
      DecodeEncode(Quantize(c));
      var word := EncodeCmd(Quantize(c)).value;
      WordIsReduced(word);
      Push(word);
    }

    /** `toFelts`: byte for byte what packing all the words at once gives. */
    method ToFelts() returns (felts: seq<nat>)
      requires Valid()
      ensures forall words: seq<Word> :: Records(complete, tail, words) ==> felts == PackedLog(words)
    {
      forall words: seq<Word> | Records(complete, tail, words)
        ensures PackedLog(words) == if tail == [] then complete else complete + [Packed(tail)]
      {
        PackedLogSplit(words, Whole(|words|));
      }
      if |tail| > 0 {
        var felt := Pack7(tail);
        return complete + [felt.value];
      }
      return complete;
    }

    method ToWords() returns (words: seq<Word>)
      requires Valid()
      ensures forall recorded: seq<Word> :: Records(complete, tail, recorded) ==> words == recorded
    {
      var felts := ToFelts();
      words := UnpackLog(felts, Length());
      forall recorded: seq<Word> | Records(complete, tail, recorded) ensures words == recorded {
        WholeLength(recorded[..Whole(|recorded|)]);
        UnpackPackLog(recorded);
      }
    }
  }

  lemma {:induction false} WholeLength(words: seq<Word>)
    requires |words| % TICS_PER_FELT == 0
    ensures |PackedLog(words)| * TICS_PER_FELT == |words|
  {
    if words != [] {
      FirstGroup(words);
      WholeLength(words[TICS_PER_FELT..]);
    }
  }

  /** `appendTics` without its flush: a whole game pushed one word at a time. */
  method Record(words: seq<int>) returns (log: TicLog)
    ensures fresh(log) && log.Valid() && Records(log.complete, log.tail, Reduced(words))
  {
    log := new TicLog();
    for i := 0 to |words|
      invariant fresh(log) && log.Valid() && Records(log.complete, log.tail, Reduced(words[..i]))
    {
      ReducedMore(words, i);
      log.Push(words[i]);
    }
    assert words[..|words|] == words;
  }

  function Reduced(words: seq<int>): (r: seq<Word>)
    ensures |r| == |words| && forall i :: 0 <= i < |r| ==> r[i] == words[i] % LANE
  {
    seq(|words|, i requires 0 <= i < |words| => words[i] % LANE)
  }

  lemma ReducedMore(words: seq<int>, i: nat)
    requires i < |words|
    ensures Reduced(words[..i + 1]) == Reduced(words[..i]) + [words[i] % LANE]
  {
  }
}
