/**
 * The packing half of client/src/chain/proof.ts: seven little-endian 32-bit limbs per felt252
 * slot, the escaped encoding of the head, and their inverses.
 */
module LimbPacking {
  import opened Sequences
  import opened Wrappers

  const BASE: nat := 0x1_0000_0000
  const ESCAPE: nat := 0xffff_ffff
  const LIMBS_PER_SLOT := 7
  /** 2^224: seven limbs, below the Starknet prime. */
  const SLOT_LIMIT: nat := 0x1_00000000_00000000_00000000_00000000_00000000_00000000_00000000

  ghost predicate AreLimbs(limbs: seq<nat>) {
    forall i :: 0 <= i < |limbs| ==> limbs[i] < BASE
  }

  /** The number whose base-2^32 digits are `limbs`, least significant first. */
  function SlotOf(limbs: seq<nat>): nat {
    if limbs == [] then 0 else limbs[0] + BASE * SlotOf(limbs[1..])
  }

  /** The `n` low limbs of `slot`. */
  function LimbsOf(slot: nat, n: nat): (limbs: seq<nat>)
    ensures |limbs| == n && AreLimbs(limbs)
  {
    if n == 0 then [] else [slot % BASE] + LimbsOf(slot / BASE, n - 1)
  }

  /** `packLimbs` as a recursion over groups of seven, the last one padded with zeros. */
  function PackedLimbs(limbs: seq<nat>): seq<nat>
    decreases |limbs|
  {
    if |limbs| == 0 then []
    else if |limbs| <= LIMBS_PER_SLOT then [SlotOf(limbs + Repeat(0, LIMBS_PER_SLOT - |limbs|))]
    else [SlotOf(limbs[..LIMBS_PER_SLOT])] + PackedLimbs(limbs[LIMBS_PER_SLOT..])
  }

  /** Every limb of every slot, in order: the first loop of `unpack`. */
  function UnpackedLimbs(slots: seq<nat>): (limbs: seq<nat>)
    ensures |limbs| == LIMBS_PER_SLOT * |slots|
  {
    if slots == [] then [] else LimbsOf(slots[0], LIMBS_PER_SLOT) + UnpackedLimbs(slots[1..])
  }

  /** `slotsOf`: how many slots `n` limbs take. */
  function SlotsFor(n: nat): nat {
    (n + LIMBS_PER_SLOT - 1) / LIMBS_PER_SLOT
  }

  lemma {:induction false} LimbsOfSlot(limbs: seq<nat>)
    requires AreLimbs(limbs)
    ensures LimbsOf(SlotOf(limbs), |limbs|) == limbs
  {
    if limbs != [] {
      var rest := SlotOf(limbs[1..]);
      assert (limbs[0] + BASE * rest) % BASE == limbs[0] && (limbs[0] + BASE * rest) / BASE == rest;
      LimbsOfSlot(limbs[1..]);
    }
  }

  function Pow(n: nat): nat {
    if n == 0 then 1 else BASE * Pow(n - 1)
  }

  lemma {:induction false} SlotBelowPow(limbs: seq<nat>)
    requires AreLimbs(limbs)
    ensures SlotOf(limbs) < Pow(|limbs|)
  {
    if limbs != [] {
      SlotBelowPow(limbs[1..]);
    }
  }

  /** Seven limbs never reach 2^224, so a slot is always a felt. */
  lemma SlotIsFelt(limbs: seq<nat>)
    requires AreLimbs(limbs) && |limbs| == LIMBS_PER_SLOT
    ensures SlotOf(limbs) < SLOT_LIMIT
  {
    SlotBelowPow(limbs);
    assert Pow(7) == BASE * Pow(6) && Pow(6) == BASE * Pow(5) && Pow(5) == BASE * Pow(4);
    assert Pow(4) == BASE * Pow(3) && Pow(3) == BASE * Pow(2) && Pow(2) == BASE * Pow(1) && Pow(1) == BASE;
  }

  /**
   * Unpacking gives the limbs back, followed only by the zeros of the last slot; every slot is
   * below 2^224 and there are exactly `SlotsFor` of them.
   */
  lemma {:induction false} UnpackedPacked(limbs: seq<nat>)
    requires AreLimbs(limbs)
    ensures var slots := PackedLimbs(limbs);
            && |slots| == SlotsFor(|limbs|)
            && UnpackedLimbs(slots) == limbs + Repeat(0, LIMBS_PER_SLOT * |slots| - |limbs|)
            && forall i :: 0 <= i < |slots| ==> slots[i] < SLOT_LIMIT
    decreases |limbs|
  {
    if 0 < |limbs| <= LIMBS_PER_SLOT {
      var padded := limbs + Repeat(0, LIMBS_PER_SLOT - |limbs|);
      LimbsOfSlot(padded);
      SlotIsFelt(padded);
      assert UnpackedLimbs([SlotOf(padded)]) == padded + UnpackedLimbs([]);
    } else if |limbs| > LIMBS_PER_SLOT {
      var first, rest := limbs[..LIMBS_PER_SLOT], limbs[LIMBS_PER_SLOT..];
      LimbsOfSlot(first);
      SlotIsFelt(first);
      UnpackedPacked(rest);
      var slots := PackedLimbs(rest);
      assert ([SlotOf(first)] + slots)[1..] == slots;
      assert limbs == first + rest;
    }
  }

  // ----- the escaped encoding ----------------------------------------------------------------

  /** One value as limbs; a value at or above the escape limb takes three. */
  function Escaped(v: nat): seq<nat> {
    if v < ESCAPE then [v] else [ESCAPE, v % BASE, v / BASE]
  }

  function EscapedAll(values: seq<nat>): seq<nat> {
    if values == [] then [] else Escaped(values[0]) + EscapedAll(values[1..])
  }

  ghost predicate AreU64(values: seq<nat>) {
    forall i :: 0 <= i < |values| ==> values[i] < BASE * BASE
  }

  /**
   * The second loop of `unpack`: `n` values read off the limbs. Past the end JavaScript pushes
   * `undefined` (`None`), and a truncated escape throws (adding a bigint to `undefined`).
   */
  function Unescaped(limbs: seq<nat>, n: nat): Result<seq<Option<nat>>>
    decreases n
  {
    if n == 0 then Ok([])
    else if limbs == [] then
      var rest :- Unescaped([], n - 1);
      Ok([None] + rest)
    else if limbs[0] == ESCAPE then
      if |limbs| < 3 then Err("Cannot mix BigInt and other types")
      else
        var rest :- Unescaped(limbs[3..], n - 1);
        Ok([Some(limbs[1] + BASE * limbs[2])] + rest)
    else
      var rest :- Unescaped(limbs[1..], n - 1);
      Ok([Some(limbs[0])] + rest)
  }

  function Defined(values: seq<nat>): seq<Option<nat>> {
    seq(|values|, i requires 0 <= i < |values| => Some(values[i]))
  }

  lemma {:induction false} EscapedAreLimbs(values: seq<nat>)
    requires AreU64(values)
    ensures AreLimbs(EscapedAll(values))
  {
    if values != [] {
      EscapedAreLimbs(values[1..]);
      assert values[0] / BASE < BASE;
    }
  }

  /** The escape leaves no ambiguity: whatever follows, the values are read back. */
  lemma {:induction false} UnescapedEscaped(values: seq<nat>, junk: seq<nat>)
    requires AreU64(values)
    ensures Unescaped(EscapedAll(values) + junk, |values|) == Ok(Defined(values))
  {
    if values != [] {
      var v, rest := values[0], EscapedAll(values[1..]) + junk;
      UnescapedEscaped(values[1..], junk);
      assert EscapedAll(values) + junk == Escaped(v) + rest;
      UnescapedStep(v, rest, |values| - 1);
      assert Defined(values) == [Some(v)] + Defined(values[1..]);
    }
  }

  lemma UnescapedStep(v: nat, rest: seq<nat>, n: nat)
    requires v < BASE * BASE
    ensures Unescaped(Escaped(v) + rest, n + 1) == Prepend([Some(v)], Unescaped(rest, n))
  {
    var limbs := Escaped(v) + rest;
    assert limbs[|Escaped(v)|..] == rest;
    if v >= ESCAPE {
      assert limbs[0] == ESCAPE && limbs[1] == v % BASE && limbs[2] == v / BASE;
    }
  }

  /** `pack`: throws on a value that does not fit the u64 escape. */
  function Packed(values: seq<nat>): Result<seq<nat>> {
    if exists i :: 0 <= i < |values| && values[i] >= BASE * BASE then Err("value does not fit the u64 escape")
    else Ok(PackedLimbs(EscapedAll(values)))
  }

  function Unpacked(slots: seq<nat>, n: nat): Result<seq<Option<nat>>> {
    Unescaped(UnpackedLimbs(slots), n)
  }

  /** `unpack` inverts `pack` on every list of values below 2^64, and every slot is a felt. */
  lemma UnpackPack(values: seq<nat>)
    ensures Packed(values).Ok? <==> AreU64(values)
    ensures Packed(values).Ok? ==>
              var slots := Packed(values).value;
              && Unpacked(slots, |values|) == Ok(Defined(values))
              && |slots| == SlotsFor(|EscapedAll(values)|)
              && forall i :: 0 <= i < |slots| ==> slots[i] < SLOT_LIMIT
  {
    if AreU64(values) {
      var limbs := EscapedAll(values);
      EscapedAreLimbs(values);
      UnpackedPacked(limbs);
      UnescapedEscaped(values, Repeat(0, LIMBS_PER_SLOT * |PackedLimbs(limbs)| - |limbs|));
    }
  }

  /** No two lists of the same length pack alike: the 2^-32 collision of an unescaped 0xFFFFFFFF is gone. */
  lemma PackInjective(a: seq<nat>, b: seq<nat>)
    requires |a| == |b| && Packed(a).Ok? && Packed(a) == Packed(b)
    ensures a == b
  {
    UnpackPack(a);
    UnpackPack(b);
    forall i | 0 <= i < |a| ensures a[i] == b[i] {
      assert Defined(a)[i] == Defined(b)[i];
    }
  }

  // ----- the fast path -----------------------------------------------------------------------

  /** `packU32`: one limb per value, throws on anything wider. */
  function PackedU32(values: seq<nat>): Result<seq<nat>> {
    if exists i :: 0 <= i < |values| && values[i] >= BASE then Err("value is not a u32")
    else Ok(PackedLimbs(values))
  }

  /** `unpack_u32`: the first `n` limbs. */
  function UnpackedU32(slots: seq<nat>, n: nat): Option<seq<nat>> {
    if n <= LIMBS_PER_SLOT * |slots| then Some(UnpackedLimbs(slots)[..n]) else None
  }

  lemma UnpackPackU32(values: seq<nat>)
    requires PackedU32(values).Ok?
    ensures AreLimbs(values)
    ensures |PackedU32(values).value| == SlotsFor(|values|)
    ensures UnpackedU32(PackedU32(values).value, |values|) == Some(values)
  {
    assert AreLimbs(values);
    UnpackedPacked(values);
  }

  /** `packSections`: each section starts on a slot of its own. */
  function PackedSections(sections: seq<seq<nat>>): Result<seq<nat>> {
    if sections == [] then Ok([])
    else
      var first :- PackedU32(sections[0]);
      var rest :- PackedSections(sections[1..]);
      Ok(first + rest)
  }

  function Lengths(sections: seq<seq<nat>>): (lens: seq<nat>)
    ensures |lens| == |sections|
  {
    seq(|sections|, i requires 0 <= i < |sections| => |sections[i]|)
  }

  /** The sections back from the slots and their unpacked lengths (`lens` travels in the calldata). */
  function UnpackedSections(slots: seq<nat>, lens: seq<nat>): Option<seq<seq<nat>>> {
    if lens == [] then if slots == [] then Some([]) else None
    else if SlotsFor(lens[0]) > |slots| then None
    else
      match (UnpackedU32(slots[..SlotsFor(lens[0])], lens[0]), UnpackedSections(slots[SlotsFor(lens[0])..], lens[1..]))
      case (Some(first), Some(rest)) => Some([first] + rest)
      case _ => None
  }

  lemma {:induction false} UnpackSections(sections: seq<seq<nat>>)
    requires PackedSections(sections).Ok?
    ensures UnpackedSections(PackedSections(sections).value, Lengths(sections)) == Some(sections)
  {
    if sections == [] {
      assert Lengths(sections) == [];
    } else {
      var first := PackedU32(sections[0]).value;
      var rest := PackedSections(sections[1..]).value;
      UnpackPackU32(sections[0]);
      UnpackSections(sections[1..]);
      assert Lengths(sections)[1..] == Lengths(sections[1..]);
      var slots, lens := first + rest, Lengths(sections);
      assert PackedSections(sections) == Ok(slots);
      assert lens != [] && SlotsFor(lens[0]) == |first|;
      assert slots[..|first|] == first && slots[|first|..] == rest;
      assert [sections[0]] + sections[1..] == sections;
    }
  }

  // ----- the loops ---------------------------------------------------------------------------

  /** `packLimbs`: pad to a multiple of seven, then one slot per group. */
  method PackLimbs(limbs: seq<nat>) returns (slots: seq<nat>)
    ensures slots == PackedLimbs(limbs)
  {
    hide PackedLimbs, Repeat, SlotOf;
    var padded := PadLimbs(limbs);
    PackedPadded(limbs, padded);
    slots := [];
    var i: nat := 0;
    ghost var rest: int := SlotsFor(|limbs|);
    while i < |padded|
      invariant 0 <= i && i + LIMBS_PER_SLOT * rest == |padded| && rest >= 0
      invariant slots + PackedLimbs(padded[i..]) == PackedLimbs(padded)
      decreases |padded| - i
    {
      var group := padded[i..i + LIMBS_PER_SLOT];
      var slot := PackSlot(group);
      PackedGroup(padded[i..]);
      assert padded[i..][..LIMBS_PER_SLOT] == group;
      assert padded[i..][LIMBS_PER_SLOT..] == padded[i + LIMBS_PER_SLOT..];
      slots := slots + [slot];
      i := i + LIMBS_PER_SLOT;
      rest := rest - 1;
    }
    PackedNone(padded[i..]);
  }

  lemma PackedNone(limbs: seq<nat>)
    requires limbs == []
    ensures PackedLimbs(limbs) == []
  {
  }

  /** The first loop of `packLimbs`. */
  method PadLimbs(limbs: seq<nat>) returns (padded: seq<nat>)
    ensures |padded| == LIMBS_PER_SLOT * SlotsFor(|limbs|)
    ensures padded == limbs + Repeat(0, |padded| - |limbs|)
  {
    padded := limbs;
    while |padded| % LIMBS_PER_SLOT != 0
      invariant |limbs| <= |padded| <= LIMBS_PER_SLOT * SlotsFor(|limbs|)
      invariant padded == limbs + Repeat(0, |padded| - |limbs|)
      decreases LIMBS_PER_SLOT * SlotsFor(|limbs|) - |padded|
    {
      padded := padded + [0];
    }
  }

  /** The inner loop of `packLimbs`: limb `j` is shifted by 32 `j` bits. */
  method PackSlot(group: seq<nat>) returns (slot: nat)
    ensures slot == SlotOf(group)
  {
    slot := 0;
    var lane: nat := 1;
    for j := 0 to |group|
      invariant lane == Pow(j)
      invariant slot == SlotOf(group[..j])
    {
      SlotOfSnoc(group[..j], group[j]);
      assert group[..j + 1] == group[..j] + [group[j]];
      slot := slot + group[j] * lane;
      lane := lane * BASE;
    }
    assert group[..|group|] == group;
  }

  /** Appending a limb adds it at its own weight. */
  lemma {:induction false} SlotOfSnoc(limbs: seq<nat>, x: nat)
    ensures SlotOf(limbs + [x]) == SlotOf(limbs) + x * Pow(|limbs|)
  {
    if limbs == [] {
      assert [x][1..] == [];
    } else {
      assert (limbs + [x])[1..] == limbs[1..] + [x];
      SlotOfSnoc(limbs[1..], x);
      calc {
        SlotOf(limbs + [x]);
        limbs[0] + BASE * (SlotOf(limbs[1..]) + x * Pow(|limbs| - 1));
        limbs[0] + BASE * SlotOf(limbs[1..]) + x * (BASE * Pow(|limbs| - 1));
      }
    }
  }

  lemma PackedGroup(padded: seq<nat>)
    requires |padded| >= LIMBS_PER_SLOT
    ensures PackedLimbs(padded) == [SlotOf(padded[..LIMBS_PER_SLOT])] + PackedLimbs(padded[LIMBS_PER_SLOT..])
  {
    if |padded| == LIMBS_PER_SLOT {
      assert padded + Repeat(0, 0) == padded == padded[..LIMBS_PER_SLOT];
    }
  }

  lemma {:induction false} PackedPadded(limbs: seq<nat>, padded: seq<nat>)
    requires |padded| == LIMBS_PER_SLOT * SlotsFor(|limbs|) && |limbs| <= |padded|
    requires padded == limbs + Repeat(0, |padded| - |limbs|)
    ensures PackedLimbs(padded) == PackedLimbs(limbs)
    decreases |limbs|
  {
    if |limbs| == 0 {
    } else if |limbs| <= LIMBS_PER_SLOT {
      assert padded + Repeat(0, 0) == padded;
    } else {
      assert padded[..LIMBS_PER_SLOT] == limbs[..LIMBS_PER_SLOT];
      PackedPadded(limbs[LIMBS_PER_SLOT..], padded[LIMBS_PER_SLOT..]);
    }
  }

  method Pack(values: seq<nat>) returns (r: Result<seq<nat>>)
    ensures r == Packed(values)
  {
    var limbs: seq<nat> := [];
    for i := 0 to |values|
      invariant limbs == EscapedAll(values[..i])
      invariant forall k :: 0 <= k < i ==> values[k] < BASE * BASE
    {
      var v := values[i];
      EscapedSnoc(values[..i], v);
      assert values[..i + 1] == values[..i] + [v];
      if v < ESCAPE {
        limbs := limbs + [v];
      } else {
        if v >= BASE * BASE { return Err("value does not fit the u64 escape"); }
        limbs := limbs + [ESCAPE, v % BASE, v / BASE];
      }
    }
    assert values[..|values|] == values;
    var slots := PackLimbs(limbs);
    r := Ok(slots);
  }

  lemma {:induction false} EscapedSnoc(values: seq<nat>, v: nat)
    ensures EscapedAll(values + [v]) == EscapedAll(values) + Escaped(v)
  {
    if values == [] {
      assert EscapedAll([v]) == Escaped(v) + EscapedAll([]);
    } else {
      assert (values + [v])[1..] == values[1..] + [v];
      EscapedSnoc(values[1..], v);
    }
  }

  function From(limbs: seq<nat>, i: nat): seq<nat> {
    if i <= |limbs| then limbs[i..] else []
  }

  method Unpack(slots: seq<nat>, n: nat) returns (r: Result<seq<Option<nat>>>)
    ensures r == Unpacked(slots, n)
  {
    var limbs := UnpackLimbs(slots);
    var out: seq<Option<nat>> := [];
    var i: nat := 0;
    assert From(limbs, 0) == limbs;
    PrependNil(Unescaped(limbs, n));
    while |out| != n
      invariant |out| <= n
      invariant Unescaped(limbs, n) == Prepend(out, Unescaped(From(limbs, i), n - |out|))
      decreases n - |out|
    {
      ghost var here, before := From(limbs, i), out;
      if i < |limbs| && limbs[i] == ESCAPE {
        if i + 2 >= |limbs| { return Err("Cannot mix BigInt and other types"); }
        assert here[3..] == From(limbs, i + 3);
        out := out + [Some(limbs[i + 1] + BASE * limbs[i + 2])];
        i := i + 3;
      } else {
        assert here != [] ==> here[1..] == From(limbs, i + 1);
        out := out + [if i < |limbs| then Some(limbs[i]) else None];
        i := i + 1;
      }
      PrependPrepend(before, [out[|before|]], Unescaped(From(limbs, i), n - |out|));
    }
    assert out + [] == out;
    r := Ok(out);
  }

  /** The first loop of `unpack`: limb `j` of every slot, in order. */
  method UnpackLimbs(slots: seq<nat>) returns (limbs: seq<nat>)
    ensures limbs == UnpackedLimbs(slots)
  {
    limbs := [];
    for k := 0 to |slots|
      invariant limbs + UnpackedLimbs(slots[k..]) == UnpackedLimbs(slots)
    {
      assert slots[k..][1..] == slots[k + 1..];
      var group := UnpackSlot(slots[k]);
      limbs := limbs + group;
    }
  }

  method UnpackSlot(felt: nat) returns (group: seq<nat>)
    ensures group == LimbsOf(felt, LIMBS_PER_SLOT)
  {
    hide LimbsOf;
    var slot: nat := felt;
    group := [];
    for j := 0 to LIMBS_PER_SLOT
      invariant group + LimbsOf(slot, LIMBS_PER_SLOT - j) == LimbsOf(felt, LIMBS_PER_SLOT)
    {
      var low, rest := slot % BASE, slot / BASE;
      NextLimb(slot, LIMBS_PER_SLOT - j);
      assert group + ([low] + LimbsOf(rest, LIMBS_PER_SLOT - (j + 1))) == (group + [low]) + LimbsOf(rest, LIMBS_PER_SLOT - (j + 1));
      group := group + [low];
      slot := rest;
    }
  }

  lemma NextLimb(slot: nat, n: nat)
    requires n > 0
    ensures LimbsOf(slot, n) == [slot % BASE] + LimbsOf(slot / BASE, n - 1)
  {
  }
}
