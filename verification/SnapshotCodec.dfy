/**
 * The binary layout of a render snapshot (client/src/sim/snapshot.ts): what one
 * `Int32Array` slot of the ring holds, how `encodeSnapshot` fills it and how
 * `decodeSnapshot` reads it back.
 *
 * `WordAt(s, a)` is the layout itself: the word that snapshot `s` puts at address `a`,
 * or `None` where the encoder leaves whatever the slot held before.
 */
module SnapshotCodec {
  import opened Wrappers

  datatype Ammo = Ammo(clip: int, shell: int, cell: int, misl: int)

  datatype Player = Player(
    x: int, y: int, z: int, viewZ: int, angle: int, pitch: int, sector: int,
    health: int, armor: int, armorType: int, ammo: Ammo, maxAmmo: Ammo,
    weapon: int, pendingWeapon: int, keys: int,
    damageCount: int, bonusCount: int, attackTic: int)

  datatype Mobj = Mobj(
    id: int, kind: int, frame: int, flags: int, x: int, y: int, z: int, angle: int, sector: int)

  datatype Sector = Sector(index: int, floorHeight: int, ceilingHeight: int, lightLevel: int)

  datatype Stats = Stats(
    kills: int, items: int, secrets: int,
    totalKills: int, totalItems: int, totalSecrets: int, levelTime: int)

  datatype Snapshot = Snapshot(
    tic: int, player: Player, mobjs: seq<Mobj>, sectors: seq<Sector>, stats: Stats)

  const MAX_MOBJS := 512
  const MAX_SECTORS := 128
  const PLAYER := 4
  const STATS := 24
  const MOBJS := 32
  const MOBJ_WORDS := 9
  const SECTOR_WORDS := 4
  const SECTORS := MOBJS + MAX_MOBJS * MOBJ_WORDS
  const SNAPSHOT_WORDS := SECTORS + MAX_SECTORS * SECTOR_WORDS

  /** A store into an `Int32Array` (and `v | 0`) wraps to a signed 32-bit word. */
  function ToInt32(v: int): int {
    (v + 0x8000_0000) % 0x1_0000_0000 - 0x8000_0000
  }

  /** `v >>> 0`. */
  function ToUint32(v: int): int {
    v % 0x1_0000_0000
  }

  function Pack3(a: int, b: int, c: int): int {
    a % 256 + 256 * (b % 256) + 65536 * (c % 256)
  }

  function Min(a: int, b: int): int {
    if a <= b then a else b
  }

  function MobjCount(s: Snapshot): nat {
    Min(|s.mobjs|, MAX_MOBJS)
  }

  function SectorCount(s: Snapshot): nat {
    Min(|s.sectors|, MAX_SECTORS)
  }

  function HeadWords(s: Snapshot): (ws: seq<int>)
    ensures |ws| == PLAYER
  {
    [ToInt32(s.tic), MobjCount(s), SectorCount(s), 0]
  }

  function PlayerWords(p: Player): (ws: seq<int>)
    ensures |ws| == STATS - PLAYER
  {
    [ToInt32(p.x), ToInt32(p.y), ToInt32(p.z), ToInt32(p.viewZ), ToInt32(p.angle),
     ToInt32(p.pitch), ToInt32(p.sector), ToInt32(p.health), ToInt32(p.armor), ToInt32(p.armorType),
     ToInt32(p.ammo.clip), ToInt32(p.ammo.shell), ToInt32(p.ammo.cell), ToInt32(p.ammo.misl),
     ToInt32(p.maxAmmo.clip), ToInt32(p.maxAmmo.shell), ToInt32(p.maxAmmo.cell), ToInt32(p.maxAmmo.misl),
     Pack3(p.weapon, p.pendingWeapon, p.keys),
     Pack3(p.damageCount, p.bonusCount, p.attackTic)]
  }

  function StatsWords(t: Stats): (ws: seq<int>)
    ensures |ws| == MOBJS - STATS
  {
    [ToInt32(t.kills), ToInt32(t.items), ToInt32(t.secrets), ToInt32(t.totalKills),
     ToInt32(t.totalItems), ToInt32(t.totalSecrets), ToInt32(t.levelTime), 0]
  }

  function MobjWords(m: Mobj): (ws: seq<int>)
    ensures |ws| == MOBJ_WORDS
  {
    [ToInt32(m.id), ToInt32(m.kind), ToInt32(m.frame), ToInt32(m.flags), ToInt32(m.x),
     ToInt32(m.y), ToInt32(m.z), ToInt32(m.angle), ToInt32(m.sector)]
  }

  function SectorWords(c: Sector): (ws: seq<int>)
    ensures |ws| == SECTOR_WORDS
  {
    [ToInt32(c.index), ToInt32(c.floorHeight), ToInt32(c.ceilingHeight), ToInt32(c.lightLevel)]
  }

  /** The word snapshot `s` puts at address `a`; `None` where the encoder writes nothing. */
  function WordAt(s: Snapshot, a: nat): Option<int> {
    if a < PLAYER then Some(HeadWords(s)[a])
    else if a < STATS then Some(PlayerWords(s.player)[a - PLAYER])
    else if a < MOBJS then Some(StatsWords(s.stats)[a - STATS])
    else if a < MOBJS + MOBJ_WORDS * MobjCount(s) then
      Some(MobjWords(s.mobjs[(a - MOBJS) / MOBJ_WORDS])[(a - MOBJS) % MOBJ_WORDS])
    else if SECTORS <= a < SECTORS + SECTOR_WORDS * SectorCount(s) then
      Some(SectorWords(s.sectors[(a - SECTORS) / SECTOR_WORDS])[(a - SECTORS) % SECTOR_WORDS])
    else None
  }

  /** A slot of the right size whose two counts index inside it: every slot of a ring is one. */
  predicate ValidSlot(src: seq<int>) {
    && |src| == SNAPSHOT_WORDS
    && 0 <= src[1] <= MAX_MOBJS
    && 0 <= src[2] <= MAX_SECTORS
  }

  /** The slot holds every word of `s`, whatever the words `s` does not use. */
  ghost predicate Holds(src: seq<int>, s: Snapshot) {
    && |src| == SNAPSHOT_WORDS
    && forall a: nat {:trigger WordAt(s, a)} ::
         a < SNAPSHOT_WORDS && WordAt(s, a).Some? ==> src[a] == WordAt(s, a).value
  }

  function DecodeMobj(src: seq<int>, b: nat): Mobj
    requires b + MOBJ_WORDS <= |src|
  {
    Mobj(src[b], src[b + 1], src[b + 2], src[b + 3], src[b + 4], src[b + 5], src[b + 6],
         ToUint32(src[b + 7]), src[b + 8])
  }

  function DecodeSector(src: seq<int>, b: nat): Sector
    requires b + SECTOR_WORDS <= |src|
  {
    Sector(src[b], src[b + 1], src[b + 2], src[b + 3])
  }

  function DecodePlayer(src: seq<int>): Player
    requires |src| >= STATS
  {
    Player(src[4], src[5], src[6], src[7], ToUint32(src[8]), src[9], src[10], src[11], src[12], src[13],
           Ammo(src[14], src[15], src[16], src[17]), Ammo(src[18], src[19], src[20], src[21]),
           src[22] % 256, src[22] / 256 % 256, src[22] / 65536 % 256,
           src[23] % 256, src[23] / 256 % 256, src[23] / 65536 % 256)
  }

  function DecodeStats(src: seq<int>): Stats
    requires |src| >= MOBJS
  {
    Stats(src[24], src[25], src[26], src[27], src[28], src[29], src[30])
  }

  function Decode(src: seq<int>): Snapshot
    requires ValidSlot(src)
  {
    Snapshot(src[0], DecodePlayer(src),
             seq(src[1], i requires 0 <= i < src[1] => DecodeMobj(src, MOBJS + MOBJ_WORDS * i)),
             seq(src[2], i requires 0 <= i < src[2] => DecodeSector(src, SECTORS + SECTOR_WORDS * i)),
             DecodeStats(src))
  }

  /** The addresses `decodeSnapshot` looks at in a slot whose counts are `mobjs` and `sectors`. */
  predicate Reads(mobjs: int, sectors: int, a: nat) {
    || a < 3
    || PLAYER <= a < MOBJS - 1
    || MOBJS <= a < MOBJS + MOBJ_WORDS * mobjs
    || SECTORS <= a < SECTORS + SECTOR_WORDS * sectors
  }

  // ----- what survives the trip ------------------------------------------------------------

  function CanonPlayer(p: Player): Player {
    Player(ToInt32(p.x), ToInt32(p.y), ToInt32(p.z), ToInt32(p.viewZ), ToUint32(p.angle),
           ToInt32(p.pitch), ToInt32(p.sector), ToInt32(p.health), ToInt32(p.armor), ToInt32(p.armorType),
           CanonAmmo(p.ammo), CanonAmmo(p.maxAmmo),
           p.weapon % 256, p.pendingWeapon % 256, p.keys % 256,
           p.damageCount % 256, p.bonusCount % 256, p.attackTic % 256)
  }

  function CanonAmmo(a: Ammo): Ammo {
    Ammo(ToInt32(a.clip), ToInt32(a.shell), ToInt32(a.cell), ToInt32(a.misl))
  }

  function CanonMobj(m: Mobj): Mobj {
    Mobj(ToInt32(m.id), ToInt32(m.kind), ToInt32(m.frame), ToInt32(m.flags), ToInt32(m.x),
         ToInt32(m.y), ToInt32(m.z), ToUint32(m.angle), ToInt32(m.sector))
  }

  function CanonSector(c: Sector): Sector {
    Sector(ToInt32(c.index), ToInt32(c.floorHeight), ToInt32(c.ceilingHeight), ToInt32(c.lightLevel))
  }

  function CanonStats(t: Stats): Stats {
    Stats(ToInt32(t.kills), ToInt32(t.items), ToInt32(t.secrets), ToInt32(t.totalKills),
          ToInt32(t.totalItems), ToInt32(t.totalSecrets), ToInt32(t.levelTime))
  }

  /** What a reader sees of `s`: counts capped, words wrapped, angles unsigned, bytes masked. */
  function Canon(s: Snapshot): Snapshot {
    Snapshot(ToInt32(s.tic), CanonPlayer(s.player),
             seq(MobjCount(s), i requires 0 <= i < MobjCount(s) => CanonMobj(s.mobjs[i])),
             seq(SectorCount(s), i requires 0 <= i < SectorCount(s) => CanonSector(s.sectors[i])),
             CanonStats(s.stats))
  }

  predicate IsInt32(v: int) { -0x8000_0000 <= v < 0x8000_0000 }
  predicate IsUint32(v: int) { 0 <= v < 0x1_0000_0000 }
  predicate IsByte(v: int) { 0 <= v < 256 }

  predicate FitsAmmo(a: Ammo) {
    IsInt32(a.clip) && IsInt32(a.shell) && IsInt32(a.cell) && IsInt32(a.misl)
  }

  predicate FitsPlayer(p: Player) {
    && IsInt32(p.x) && IsInt32(p.y) && IsInt32(p.z) && IsInt32(p.viewZ) && IsUint32(p.angle)
    && IsInt32(p.pitch) && IsInt32(p.sector) && IsInt32(p.health) && IsInt32(p.armor)
    && IsInt32(p.armorType) && FitsAmmo(p.ammo) && FitsAmmo(p.maxAmmo)
    && IsByte(p.weapon) && IsByte(p.pendingWeapon) && IsByte(p.keys)
    && IsByte(p.damageCount) && IsByte(p.bonusCount) && IsByte(p.attackTic)
  }

  predicate FitsMobj(m: Mobj) {
    && IsInt32(m.id) && IsInt32(m.kind) && IsInt32(m.frame) && IsInt32(m.flags)
    && IsInt32(m.x) && IsInt32(m.y) && IsInt32(m.z) && IsUint32(m.angle) && IsInt32(m.sector)
  }

  predicate FitsSector(c: Sector) {
    IsInt32(c.index) && IsInt32(c.floorHeight) && IsInt32(c.ceilingHeight) && IsInt32(c.lightLevel)
  }

  predicate FitsStats(t: Stats) {
    && IsInt32(t.kills) && IsInt32(t.items) && IsInt32(t.secrets) && IsInt32(t.totalKills)
    && IsInt32(t.totalItems) && IsInt32(t.totalSecrets) && IsInt32(t.levelTime)
  }

  /** Every count within its cap and every field within the width the layout gives it. */
  predicate Fits(s: Snapshot) {
    && IsInt32(s.tic) && FitsPlayer(s.player) && FitsStats(s.stats)
    && |s.mobjs| <= MAX_MOBJS && |s.sectors| <= MAX_SECTORS
    && (forall i :: 0 <= i < |s.mobjs| ==> FitsMobj(s.mobjs[i]))
    && (forall i :: 0 <= i < |s.sectors| ==> FitsSector(s.sectors[i]))
  }

  lemma HoldsIsValid(src: seq<int>, s: Snapshot)
    requires Holds(src, s)
    ensures ValidSlot(src) && src[1] == MobjCount(s) && src[2] == SectorCount(s)
  {
    assert WordAt(s, 1) == Some(MobjCount(s));
    assert WordAt(s, 2) == Some(SectorCount(s));
  }

  /** `Holds`, one address at a time. */
  lemma Held(src: seq<int>, s: Snapshot, a: nat, w: int)
    requires Holds(src, s) && a < SNAPSHOT_WORDS
    requires WordAt(s, a) == Some(w)
    ensures src[a] == w
  {
  }

  lemma DecodePlayerOf(src: seq<int>, s: Snapshot)
    requires Holds(src, s)
    ensures DecodePlayer(src) == CanonPlayer(s.player)
  {
    var p := s.player;
    DecodePositionOf(src, s);
    DecodeConditionOf(src, s);
    DecodeAmmoOf(src, s);
    DecodePackedOf(src, s);
    Unpack3(p.weapon, p.pendingWeapon, p.keys);
    Unpack3(p.damageCount, p.bonusCount, p.attackTic);
  }

  lemma DecodePositionOf(src: seq<int>, s: Snapshot)
    requires Holds(src, s)
    ensures src[4] == ToInt32(s.player.x) && src[5] == ToInt32(s.player.y) && src[6] == ToInt32(s.player.z)
    ensures src[7] == ToInt32(s.player.viewZ) && src[8] == ToInt32(s.player.angle)
  {
    var p := s.player;
    Held(src, s, 4, ToInt32(p.x));
    Held(src, s, 5, ToInt32(p.y));
    Held(src, s, 6, ToInt32(p.z));
    Held(src, s, 7, ToInt32(p.viewZ));
    Held(src, s, 8, ToInt32(p.angle));
  }

  lemma DecodeConditionOf(src: seq<int>, s: Snapshot)
    requires Holds(src, s)
    ensures src[9] == ToInt32(s.player.pitch) && src[10] == ToInt32(s.player.sector)
    ensures src[11] == ToInt32(s.player.health)
    ensures src[12] == ToInt32(s.player.armor) && src[13] == ToInt32(s.player.armorType)
  {
    var p := s.player;
    Held(src, s, 9, ToInt32(p.pitch));
    Held(src, s, 10, ToInt32(p.sector));
    Held(src, s, 11, ToInt32(p.health));
    Held(src, s, 12, ToInt32(p.armor));
    Held(src, s, 13, ToInt32(p.armorType));
  }

  lemma DecodePackedOf(src: seq<int>, s: Snapshot)
    requires Holds(src, s)
    ensures src[22] == Pack3(s.player.weapon, s.player.pendingWeapon, s.player.keys)
    ensures src[23] == Pack3(s.player.damageCount, s.player.bonusCount, s.player.attackTic)
  {
    var p := s.player;
    Held(src, s, 22, Pack3(p.weapon, p.pendingWeapon, p.keys));
    Held(src, s, 23, Pack3(p.damageCount, p.bonusCount, p.attackTic));
  }

  /** Three bytes packed into one word come back apart. */
  lemma Unpack3(a: int, b: int, c: int)
    ensures Pack3(a, b, c) % 256 == a % 256
    ensures Pack3(a, b, c) / 256 % 256 == b % 256
    ensures Pack3(a, b, c) / 65536 % 256 == c % 256
  {
  }

  lemma DecodeAmmoOf(src: seq<int>, s: Snapshot)
    requires Holds(src, s)
    ensures Ammo(src[14], src[15], src[16], src[17]) == CanonAmmo(s.player.ammo)
    ensures Ammo(src[18], src[19], src[20], src[21]) == CanonAmmo(s.player.maxAmmo)
  {
    var p := s.player;
    Held(src, s, 14, ToInt32(p.ammo.clip));
    Held(src, s, 15, ToInt32(p.ammo.shell));
    Held(src, s, 16, ToInt32(p.ammo.cell));
    Held(src, s, 17, ToInt32(p.ammo.misl));
    Held(src, s, 18, ToInt32(p.maxAmmo.clip));
    Held(src, s, 19, ToInt32(p.maxAmmo.shell));
    Held(src, s, 20, ToInt32(p.maxAmmo.cell));
    Held(src, s, 21, ToInt32(p.maxAmmo.misl));
  }

  lemma DecodeStatsOf(src: seq<int>, s: Snapshot)
    requires Holds(src, s)
    ensures DecodeStats(src) == CanonStats(s.stats)
  {
    var t := s.stats;
    Held(src, s, 24, ToInt32(t.kills));
    Held(src, s, 25, ToInt32(t.items));
    Held(src, s, 26, ToInt32(t.secrets));
    Held(src, s, 27, ToInt32(t.totalKills));
    Held(src, s, 28, ToInt32(t.totalItems));
    Held(src, s, 29, ToInt32(t.totalSecrets));
    Held(src, s, 30, ToInt32(t.levelTime));
  }

  lemma MobjWordAt(s: Snapshot, i: nat, k: nat)
    requires i < MobjCount(s) && k < MOBJ_WORDS
    ensures WordAt(s, MOBJS + MOBJ_WORDS * i + k) == Some(MobjWords(s.mobjs[i])[k])
  {
    var a := MOBJS + MOBJ_WORDS * i + k;
    assert (a - MOBJS) / MOBJ_WORDS == i && (a - MOBJS) % MOBJ_WORDS == k;
  }

  lemma SectorWordAt(s: Snapshot, i: nat, k: nat)
    requires i < SectorCount(s) && k < SECTOR_WORDS
    ensures WordAt(s, SECTORS + SECTOR_WORDS * i + k) == Some(SectorWords(s.sectors[i])[k])
  {
    var a := SECTORS + SECTOR_WORDS * i + k;
    assert (a - SECTORS) / SECTOR_WORDS == i && (a - SECTORS) % SECTOR_WORDS == k;
  }

  lemma HeldMobj(src: seq<int>, s: Snapshot, i: nat, k: nat, w: int)
    requires Holds(src, s) && i < MobjCount(s) && k < MOBJ_WORDS && w == MobjWords(s.mobjs[i])[k]
    ensures src[MOBJS + MOBJ_WORDS * i + k] == w
  {
    MobjWordAt(s, i, k);
  }

  lemma HeldSector(src: seq<int>, s: Snapshot, i: nat, k: nat, w: int)
    requires Holds(src, s) && i < SectorCount(s) && k < SECTOR_WORDS && w == SectorWords(s.sectors[i])[k]
    ensures src[SECTORS + SECTOR_WORDS * i + k] == w
  {
    SectorWordAt(s, i, k);
  }

  lemma DecodeMobjOf(src: seq<int>, s: Snapshot, i: nat)
    requires Holds(src, s) && i < MobjCount(s)
    ensures DecodeMobj(src, MOBJS + MOBJ_WORDS * i) == CanonMobj(s.mobjs[i])
  {
    var m := s.mobjs[i];
    HeldMobj(src, s, i, 0, ToInt32(m.id));
    HeldMobj(src, s, i, 1, ToInt32(m.kind));
    HeldMobj(src, s, i, 2, ToInt32(m.frame));
    HeldMobj(src, s, i, 3, ToInt32(m.flags));
    HeldMobj(src, s, i, 4, ToInt32(m.x));
    HeldMobj(src, s, i, 5, ToInt32(m.y));
    HeldMobj(src, s, i, 6, ToInt32(m.z));
    HeldMobj(src, s, i, 7, ToInt32(m.angle));
    HeldMobj(src, s, i, 8, ToInt32(m.sector));
  }

  lemma DecodeSectorOf(src: seq<int>, s: Snapshot, i: nat)
    requires Holds(src, s) && i < SectorCount(s)
    ensures DecodeSector(src, SECTORS + SECTOR_WORDS * i) == CanonSector(s.sectors[i])
  {
    var c := s.sectors[i];
    HeldSector(src, s, i, 0, ToInt32(c.index));
    HeldSector(src, s, i, 1, ToInt32(c.floorHeight));
    HeldSector(src, s, i, 2, ToInt32(c.ceilingHeight));
    HeldSector(src, s, i, 3, ToInt32(c.lightLevel));
  }

  /**
   * Whatever stale words a slot still carries, decoding it gives the snapshot last encoded
   * there, up to the documented truncations.
   */
  lemma DecodeOfHolds(src: seq<int>, s: Snapshot)
    requires Holds(src, s)
    ensures ValidSlot(src) && Decode(src) == Canon(s)
  {
    HoldsIsValid(src, s);
    assert WordAt(s, 0) == Some(ToInt32(s.tic));
    DecodePlayerOf(src, s);
    DecodeStatsOf(src, s);
    forall i | 0 <= i < MobjCount(s)
      ensures Decode(src).mobjs[i] == Canon(s).mobjs[i]
    {
      DecodeMobjOf(src, s, i);
    }
    forall i | 0 <= i < SectorCount(s)
      ensures Decode(src).sectors[i] == Canon(s).sectors[i]
    {
      DecodeSectorOf(src, s, i);
    }
  }

  lemma CanonMobjExact(m: Mobj)
    ensures CanonMobj(m) == m <==> FitsMobj(m)
  {
  }

  /** Each conversion is the identity exactly on its range. */
  lemma ConversionsExact()
    ensures forall v :: ToInt32(v) == v <==> IsInt32(v)
    ensures forall v :: ToUint32(v) == v <==> IsUint32(v)
    ensures forall v :: v % 256 == v <==> IsByte(v)
  {
  }

  lemma CanonPlayerExact(p: Player)
    ensures CanonPlayer(p) == p <==> FitsPlayer(p)
  {
    ConversionsExact();
    hide ToInt32, ToUint32, IsInt32, IsUint32, IsByte;
  }

  /** `Canon` is the identity exactly on the snapshots that fit the layout. */
  lemma CanonExact(s: Snapshot)
    ensures Canon(s) == s <==> Fits(s)
  {
    CanonPlayerExact(s.player);
    CanonStatsExact(s.stats);
    CanonMobjsExact(s);
    CanonSectorsExact(s);
    hide CanonPlayer, CanonStats, CanonMobj, CanonSector, FitsPlayer, FitsStats, FitsMobj, FitsSector;
  }

  lemma CanonStatsExact(s: Stats)
    ensures CanonStats(s) == s <==> FitsStats(s)
  {
  }

  lemma CanonMobjsExact(s: Snapshot)
    ensures Canon(s).mobjs == s.mobjs
            <==> |s.mobjs| <= MAX_MOBJS && forall i :: 0 <= i < |s.mobjs| ==> FitsMobj(s.mobjs[i])
  {
    hide CanonMobj, FitsMobj;
    var mobjs := Canon(s).mobjs;
    forall i | 0 <= i < |mobjs| ensures mobjs[i] == s.mobjs[i] <==> FitsMobj(s.mobjs[i]) {
      CanonMobjExact(s.mobjs[i]);
    }
    if mobjs == s.mobjs {
      forall i | 0 <= i < |s.mobjs| ensures FitsMobj(s.mobjs[i]) {
        assert mobjs[i] == s.mobjs[i];
      }
    }
  }

  lemma CanonSectorsExact(s: Snapshot)
    ensures Canon(s).sectors == s.sectors
            <==> |s.sectors| <= MAX_SECTORS && forall i :: 0 <= i < |s.sectors| ==> FitsSector(s.sectors[i])
  {
    var sectors := Canon(s).sectors;
    if sectors == s.sectors {
      forall i | 0 <= i < |s.sectors| ensures FitsSector(s.sectors[i]) {
        assert sectors[i] == s.sectors[i];
      }
    }
  }


  /** A snapshot round-trips exactly when its counts and fields fit the layout. */
  lemma RoundTripExact(src: seq<int>, s: Snapshot)
    requires Holds(src, s)
    ensures ValidSlot(src) && (Decode(src) == s <==> Fits(s))
  {
    DecodeOfHolds(src, s);
    CanonExact(s);
  }

  /**
   * `Decode` looks at nothing outside `Reads`: a copy that agrees with the slot there
   * decodes to the same snapshot.
   */
  lemma DecodeLocal(copy: seq<int>, src: seq<int>)
    requires ValidSlot(src) && |copy| == SNAPSHOT_WORDS
    requires forall a: nat :: a < SNAPSHOT_WORDS && Reads(src[1], src[2], a) ==> copy[a] == src[a]
    ensures ValidSlot(copy) && Decode(copy) == Decode(src)
  {
    assert Reads(src[1], src[2], 1) && Reads(src[1], src[2], 2) && Reads(src[1], src[2], 0);
    assert forall a: nat :: PLAYER <= a < MOBJS - 1 ==> Reads(src[1], src[2], a) && copy[a] == src[a];
    assert DecodePlayer(copy) == DecodePlayer(src);
    assert DecodeStats(copy) == DecodeStats(src);
    forall i | 0 <= i < src[1]
      ensures DecodeMobj(copy, MOBJS + MOBJ_WORDS * i) == DecodeMobj(src, MOBJS + MOBJ_WORDS * i)
    {
      var b := MOBJS + MOBJ_WORDS * i;
      assert forall k :: b <= k < b + 9 ==> Reads(src[1], src[2], k) && copy[k] == src[k];
    }
    forall i | 0 <= i < src[2]
      ensures DecodeSector(copy, SECTORS + SECTOR_WORDS * i) == DecodeSector(src, SECTORS + SECTOR_WORDS * i)
    {
      var b := SECTORS + SECTOR_WORDS * i;
      assert forall k :: b <= k < b + 4 ==> Reads(src[1], src[2], k) && copy[k] == src[k];
    }
    assert Decode(copy).mobjs == Decode(src).mobjs;
    assert Decode(copy).sectors == Decode(src).sectors;
  }

  // ----- the imperative encoder and decoder ------------------------------------------------

  /** The run of `out[o++] = …` stores: `words` written from `o` on, nothing else touched. */
  method StoreWords(out: array<int>, o: nat, words: seq<int>)
    requires o + |words| <= out.Length
    modifies out
    ensures forall a :: 0 <= a < out.Length ==>
              out[a] == if o <= a < o + |words| then words[a - o] else old(out[a])
  {
    for k := 0 to |words|
      invariant forall a :: 0 <= a < out.Length ==>
                  out[a] == if o <= a < o + k then words[a - o] else old(out[a])
    {
      out[o + k] := words[k];
    }
  }

  /** Everything `snap` puts below `limit` is in `now`; everything else is as in `was`. */
  ghost predicate EncodedBelow(now: seq<int>, was: seq<int>, snap: Snapshot, limit: nat) {
    && |now| == |was| == SNAPSHOT_WORDS
    && forall a: nat {:trigger now[a]} :: a < SNAPSHOT_WORDS ==>
         now[a] == if a < limit && WordAt(snap, a).Some? then WordAt(snap, a).value else was[a]
  }

  /** One more block of words extends what has been encoded. */
  lemma EncodedBlock(now: seq<int>, after: seq<int>, was: seq<int>, snap: Snapshot, o: nat, words: seq<int>)
    requires EncodedBelow(now, was, snap, o) && o + |words| <= |after| == SNAPSHOT_WORDS
    requires forall a :: 0 <= a < |after| ==>
               after[a] == if o <= a < o + |words| then words[a - o] else now[a]
    requires forall k: nat :: k < |words| ==> WordAt(snap, o + k) == Some(words[k])
    ensures EncodedBelow(after, was, snap, o + |words|)
  {
    forall a: nat | o <= a < o + |words| ensures WordAt(snap, a) == Some(words[a - o]) {
      assert WordAt(snap, o + (a - o)) == Some(words[a - o]);
    }
  }

  lemma EncodedSkip(now: seq<int>, was: seq<int>, snap: Snapshot, lo: nat, hi: nat)
    requires EncodedBelow(now, was, snap, lo) && lo <= hi
    requires forall a: nat :: lo <= a < hi ==> WordAt(snap, a).None?
    ensures EncodedBelow(now, was, snap, hi)
  {
  }

  /** `encodeSnapshot`: afterwards the slot holds `snap`, and every word `snap` does not use is as before. */
  method EncodeSnapshot(out: array<int>, snap: Snapshot)
    requires out.Length == SNAPSHOT_WORDS
    modifies out
    ensures Holds(out[..], snap)
    ensures forall a: nat :: a < out.Length && WordAt(snap, a).None? ==> out[a] == old(out[a])
  {
    ghost var was := out[..];
    EncodeFixed(out, snap);
    ghost var now := out[..];
    for i := 0 to MobjCount(snap)
      invariant now == out[..] && EncodedBelow(now, was, snap, MOBJS + MOBJ_WORDS * i)
    {
      var o := MOBJS + MOBJ_WORDS * i;
      StoreWords(out, o, MobjWords(snap.mobjs[i]));
      forall k: nat | k < MOBJ_WORDS ensures WordAt(snap, o + k) == Some(MobjWords(snap.mobjs[i])[k]) {
        MobjWordAt(snap, i, k);
      }
      EncodedBlock(now, out[..], was, snap, o, MobjWords(snap.mobjs[i]));
      now := out[..];
    }
    EncodedSkip(now, was, snap, MOBJS + MOBJ_WORDS * MobjCount(snap), SECTORS);
    for i := 0 to SectorCount(snap)
      invariant now == out[..] && EncodedBelow(now, was, snap, SECTORS + SECTOR_WORDS * i)
    {
      var o := SECTORS + SECTOR_WORDS * i;
      StoreWords(out, o, SectorWords(snap.sectors[i]));
      forall k: nat | k < SECTOR_WORDS ensures WordAt(snap, o + k) == Some(SectorWords(snap.sectors[i])[k]) {
        SectorWordAt(snap, i, k);
      }
      EncodedBlock(now, out[..], was, snap, o, SectorWords(snap.sectors[i]));
      now := out[..];
    }
    EncodedSkip(now, was, snap, SECTORS + SECTOR_WORDS * SectorCount(snap), SNAPSHOT_WORDS);
    assert Holds(out[..], snap);
  }

  /** The header, player and stats blocks. */
  method EncodeFixed(out: array<int>, snap: Snapshot)
    requires out.Length == SNAPSHOT_WORDS
    modifies out
    ensures EncodedBelow(out[..], old(out[..]), snap, MOBJS)
  {
    ghost var was := out[..];
    assert EncodedBelow(out[..], was, snap, 0);
    StoreWords(out, 0, HeadWords(snap));
    assert forall k: nat :: k < PLAYER ==> WordAt(snap, 0 + k) == Some(HeadWords(snap)[k]);
    EncodedBlock(was, out[..], was, snap, 0, HeadWords(snap));
    ghost var now := out[..];
    StoreWords(out, PLAYER, PlayerWords(snap.player));
    assert forall k: nat :: k < 20 ==> WordAt(snap, PLAYER + k) == Some(PlayerWords(snap.player)[k]);
    EncodedBlock(now, out[..], was, snap, PLAYER, PlayerWords(snap.player));
    now := out[..];
    StoreWords(out, STATS, StatsWords(snap.stats));
    assert forall k: nat :: k < 8 ==> WordAt(snap, STATS + k) == Some(StatsWords(snap.stats)[k]);
    EncodedBlock(now, out[..], was, snap, STATS, StatsWords(snap.stats));
  }

  /** `decodeSnapshot` with its two loops. */
  method DecodeSnapshot(src: array<int>) returns (s: Snapshot)
    requires ValidSlot(src[..])
    ensures s == Decode(src[..])
  {
    var words := src[..];
    var mobjs := [];
    for i := 0 to src[1]
      invariant |mobjs| == i
      invariant forall j :: 0 <= j < i ==> mobjs[j] == DecodeMobj(words, MOBJS + MOBJ_WORDS * j)
    {
      mobjs := mobjs + [DecodeMobj(words, MOBJS + MOBJ_WORDS * i)];
    }
    var sectors := [];
    for i := 0 to src[2]
      invariant |sectors| == i
      invariant forall j :: 0 <= j < i ==> sectors[j] == DecodeSector(words, SECTORS + SECTOR_WORDS * j)
    {
      sectors := sectors + [DecodeSector(words, SECTORS + SECTOR_WORDS * i)];
    }
    s := Snapshot(src[0], DecodePlayer(words), mobjs, sectors, DecodeStats(words));
  }
}
