/**
 * `SnapshotRing` of client/src/sim/snapshot.ts as the object one thread sees: header words and
 * three slots updated in place. With publisher and reader on the same thread no read is ever
 * torn, so the retry loop must not fire; the interleaved case is module `SnapshotRing`.
 */
module SnapshotBuffer {
  import opened SnapshotCodec
  import opened Wrappers

  const SEQ := 0
  const PUBLISHED := 1
  const TIC := 2
  const INPUT_HEAD := 3
  const HEADER_WORDS := 16
  const SLOT_COUNT := 3

  class Ring {
    const header: array<int>
    const slot0: array<int>
    const slot1: array<int>
    const slot2: array<int>
    /** Every snapshot published so far. */
    ghost var history: seq<Snapshot>

    function Slot(i: nat): array<int>
      requires i < SLOT_COUNT
    {
      if i == 0 then slot0 else if i == 1 then slot1 else slot2
    }

    ghost predicate Shape()
      reads this
    {
      && header.Length == HEADER_WORDS
      && slot0.Length == slot1.Length == slot2.Length == SNAPSHOT_WORDS
      && header !in {slot0, slot1, slot2} && slot0 != slot1 && slot0 != slot2 && slot1 != slot2
    }

    /** Publication number `n` is still in the slot it went to. */
    ghost predicate Kept(n: nat)
      requires Shape() && 1 <= n <= |history|
      reads this, slot0, slot1, slot2
    {
      Holds(Slot((n - 1) % SLOT_COUNT)[..], history[n - 1])
    }

    ghost predicate Valid()
      reads this, header, slot0, slot1, slot2
    {
      && Shape()
      && header[SEQ] == |history|
      && header[PUBLISHED] == (if history == [] then -1 else (|history| - 1) % SLOT_COUNT)
      && (history != [] ==> header[TIC] == ToInt32(history[|history| - 1].tic))
      && forall n: nat :: 1 <= n <= |history| <= n + 2 ==> Kept(n)
    }

    /** A fresh buffer: nothing published, and -1 rather than 0 says so. */
    constructor ()
      ensures Valid() && history == []
      ensures fresh(header) && fresh(slot0) && fresh(slot1) && fresh(slot2)
      ensures header[INPUT_HEAD] == -1
    {
      header := new int[HEADER_WORDS](_ => 0);
      slot0 := new int[SNAPSHOT_WORDS](_ => 0);
      slot1 := new int[SNAPSHOT_WORDS](_ => 0);
      slot2 := new int[SNAPSHOT_WORDS](_ => 0);
      history := [];
      new;
      if header[SEQ] == 0 && header[TIC] == 0 {
        header[PUBLISHED] := -1;
        header[INPUT_HEAD] := -1;
      }
    }

    method Publish(snapshot: Snapshot)
      requires Valid()
      modifies this, header, slot0, slot1, slot2
      ensures Valid() && history == old(history) + [snapshot]
    {
      hide Holds;
      var published := header[PUBLISHED];
      var next := (published + 1 + SLOT_COUNT) % SLOT_COUNT;
      EncodeSnapshot(Slot(next), snapshot);
      header[TIC] := ToInt32(snapshot.tic);
      header[PUBLISHED] := next;
      header[SEQ] := header[SEQ] + 1;
      history := history + [snapshot];
      forall n: nat | 1 <= n <= |history| <= n + 2 ensures Kept(n) {
        assert n < |history| ==> old(Kept(n));
      }
    }

    /** `null` until two tics have been published, then always the last two: the loop never repeats. */
    method ReadPair() returns (r: Option<(Snapshot, Snapshot)>)
      requires Valid()
      ensures r.None? <==> |history| < 2
      ensures |history| >= 2 ==>
                r == Some((Canon(history[|history| - 2]), Canon(history[|history| - 1])))
    {
      hide Holds, Decode, Canon;
      for attempt := 0 to 8
        invariant attempt == 0
      {
        var seq0 := header[SEQ];
        var index := header[PUBLISHED];
        if index < 0 || seq0 < 2 { return None; }
        var n := |history|;
        assert Kept(n);
        assert Kept(n - 1);
        assert (index + SLOT_COUNT - 1) % SLOT_COUNT == (n - 2) % SLOT_COUNT;
        DecodeOfHolds(Slot(index)[..], history[n - 1]);
        DecodeOfHolds(Slot((n - 2) % SLOT_COUNT)[..], history[n - 2]);
        var current := DecodeSnapshot(Slot(index));
        var previous := DecodeSnapshot(Slot((index + SLOT_COUNT - 1) % SLOT_COUNT));
        if header[SEQ] == seq0 { return Some((previous, current)); }
      }
      r := None;
    }

    method ReadLatest() returns (r: Option<Snapshot>)
      requires Valid()
      ensures r == if history == [] then None else Some(Canon(history[|history| - 1]))
    {
      for attempt := 0 to 8
        invariant attempt == 0
      {
        var seq0 := header[SEQ];
        var index := header[PUBLISHED];
        if index < 0 { return None; }
        var n := |history|;
        assert Kept(n);
        DecodeOfHolds(Slot(index)[..], history[n - 1]);
        var snap := DecodeSnapshot(Slot(index));
        if header[SEQ] == seq0 { return Some(snap); }
      }
      r := None;
    }
  }
}
