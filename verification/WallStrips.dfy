/**
 * Which strips of wall there are, and how each hangs, told from the level's own data and the fields
 * of the quads alone: what client/src/map/walls.ts promises of `buildWallQuads`, against the
 * functions of `Walls` that its loops compute.
 */
module WallStrips {
  import opened Walls
  import opened Wrappers

  // ----- one side of a linedef -----------------------------------------------------------------

  /** The sidedef on this side of the line, if it has one. */
  function Own(level: Level, li: nat, front: bool): Option<Sidedef>
    requires li < |level.linedefs|
  {
    var i := OwnIndex(level, li, front);
    if i != 65535 && 0 <= i < |level.sidedefs| then Some(level.sidedefs[i]) else None
  }

  function OwnIndex(level: Level, li: nat, front: bool): int
    requires li < |level.linedefs|
  {
    if front then level.linedefs[li].frontSidedef else level.linedefs[li].backSidedef
  }

  predicate HasEnds(level: Level, li: nat)
    requires li < |level.linedefs|
  {
    0 <= level.linedefs[li].startVertex < |level.vertexes| && 0 <= level.linedefs[li].endVertex < |level.vertexes|
  }

  /** Heights of a sector, 0 where the level has none. */
  function Floor(h: Heights, sector: int): real {
    if 0 <= sector < |h.floor| then h.floor[sector] else 0.0
  }

  function Ceiling(h: Heights, sector: int): real {
    if 0 <= sector < |h.ceiling| then h.ceiling[sector] else 0.0
  }

  predicate Sky(level: Level, sector: int) {
    0 <= sector < |level.sectors| && level.sectors[sector].ceilingTexture == "F_SKY1"
  }

  function TextureFor(side: Sidedef, kind: Kind): string {
    match kind
    case Upper => side.upperTexture
    case Lower => side.lowerTexture
    case _ => side.middleTexture
  }

  /** The texture is named and known. */
  predicate Textured(side: Sidedef, kind: Kind, tex: TextureSizes) {
    TextureFor(side, kind) != "" && TextureFor(side, kind) != "-" && tex(TextureFor(side, kind)).Some?
  }

  /** What a side and the sector behind it leave open, above and below. */
  function OpenTop(h: Heights, side: Sidedef, other: Sidedef): real {
    if Ceiling(h, side.sector) < Ceiling(h, other.sector) then Ceiling(h, side.sector) else Ceiling(h, other.sector)
  }

  function OpenBottom(h: Heights, side: Sidedef, other: Sidedef): real {
    if Floor(h, side.sector) > Floor(h, other.sector) then Floor(h, side.sector) else Floor(h, other.sector)
  }

  // ----- how a strip hangs ---------------------------------------------------------------------

  predicate UpperUnpegged(flags: nat) {
    flags % 16 >= 8
  }

  predicate LowerUnpegged(flags: nat) {
    flags % 32 >= 16
  }

  /**
   * Where texture row 0, or the row after the last one, of a texture `height` high hangs, the
   * sidedef's own offset taken off: the table of the source, its eight rows.
   */
  predicate Hangs(h: Heights, flags: nat, side: Sidedef, other: Option<Sidedef>, kind: Kind, height: real, row0: real) {
    var top, end := row0 - side.yOffset, row0 - side.yOffset - height;
    match kind
    case Middle => if LowerUnpegged(flags) then end == Floor(h, side.sector) else top == Ceiling(h, side.sector)
    case Upper =>
      other.Some? &&
      if UpperUnpegged(flags) then top == Ceiling(h, side.sector) else end == Ceiling(h, other.value.sector)
    case Lower =>
      other.Some? &&
      if LowerUnpegged(flags) then top == Ceiling(h, side.sector) else top == Floor(h, other.value.sector)
    case MiddleMasked =>
      other.Some? &&
      if LowerUnpegged(flags) then end == OpenBottom(h, side, other.value) else top == OpenTop(h, side, other.value)
  }

  /** Between which heights the strip stands; a masked one is also cut to its own texture. */
  predicate Spans(h: Heights, side: Sidedef, other: Option<Sidedef>, q: Quad, height: real) {
    match q.kind
    case Middle => other.None? && q.zBottom == Floor(h, side.sector) && q.zTop == Ceiling(h, side.sector)
    case Upper => other.Some? && q.zBottom == Ceiling(h, other.value.sector) && q.zTop == Ceiling(h, side.sector)
    case Lower => other.Some? && q.zBottom == Floor(h, side.sector) && q.zTop == Floor(h, other.value.sector)
    case MiddleMasked =>
      && other.Some?
      && q.zTop <= OpenTop(h, side, other.value) && q.zTop <= q.worldTopZ
      && (q.zTop == OpenTop(h, side, other.value) || q.zTop == q.worldTopZ)
      && q.zBottom >= OpenBottom(h, side, other.value) && q.zBottom >= q.worldTopZ - height
      && (q.zBottom == OpenBottom(h, side, other.value) || q.zBottom == q.worldTopZ - height)
  }

  /** The quad is a strip of this side of the line: whose it is, where it runs, and how it hangs. */
  predicate IsStrip(level: Level, h: Heights, tex: TextureSizes, li: nat, front: bool, q: Quad)
    requires li < |level.linedefs|
  {
    && HasEnds(level, li) && Own(level, li, front).Some?
    && var side, other, line := Own(level, li, front).value, Own(level, li, !front), level.linedefs[li];
       var start, end := level.vertexes[line.startVertex], level.vertexes[line.endVertex];
       && q.linedef == li && q.sidedef == OwnIndex(level, li, front) && q.sector == side.sector
       && q.from == (if front then start else end) && q.to == (if front then end else start)
       && q.uOffset == side.xOffset && q.lightDelta == (if start.y == end.y then -16 else if start.x == end.x then 16 else 0)
       && q.texture == TextureFor(side, q.kind) && Textured(side, q.kind, tex)
       && q.clampV == q.kind.MiddleMasked? && q.zBottom < q.zTop
       && Spans(h, side, other, q, tex(q.texture).value)
       && Hangs(h, line.flags, side, other, q.kind, tex(q.texture).value, q.worldTopZ)
  }

  /** Row 0 of a masked middle, from the table. */
  function MaskedRow0(h: Heights, flags: nat, side: Sidedef, other: Sidedef, height: real): real {
    side.yOffset + if LowerUnpegged(flags) then OpenBottom(h, side, other) + height else OpenTop(h, side, other)
  }

  /** There is something to draw of this kind on this side. */
  predicate Shows(level: Level, h: Heights, tex: TextureSizes, li: nat, front: bool, kind: Kind)
    requires li < |level.linedefs|
  {
    && HasEnds(level, li) && Own(level, li, front).Some?
    && var side, other := Own(level, li, front).value, Own(level, li, !front);
       && Textured(side, kind, tex)
       && match kind
          case Middle => other.None? && Floor(h, side.sector) < Ceiling(h, side.sector)
          case Upper =>
            && other.Some? && Ceiling(h, other.value.sector) < Ceiling(h, side.sector)
            && !(Sky(level, side.sector) && Sky(level, other.value.sector))
          case Lower => other.Some? && Floor(h, side.sector) < Floor(h, other.value.sector)
          case MiddleMasked =>
            && other.Some? && OpenBottom(h, side, other.value) < OpenTop(h, side, other.value)
            && var height := tex(side.middleTexture).value;
               var row0 := MaskedRow0(h, level.linedefs[li].flags, side, other.value, height);
               height > 0.0 && OpenBottom(h, side, other.value) < row0 && row0 - height < OpenTop(h, side, other.value)
  }

  // ----- the strips of one side ----------------------------------------------------------------

  /** What `emitSide` is told of this side. */
  function PlacingOf(level: Level, li: nat, front: bool): Placing
    requires li < |level.linedefs| && HasEnds(level, li) && Own(level, li, front).Some?
  {
    var line := level.linedefs[li];
    var start, end := level.vertexes[line.startVertex], level.vertexes[line.endVertex];
    Placing(li, line.flags, OwnIndex(level, li, front), Own(level, li, front).value,
            if front then start else end, if front then end else start, LightDelta(start, end))
  }

  /** What it pushes. */
  function SidePart(level: Level, h: Heights, tex: TextureSizes, li: nat, front: bool): seq<Quad>
    requires li < |level.linedefs|
  {
    if HasEnds(level, li) && Own(level, li, front).Some?
    then SideQuads(level, h, tex, PlacingOf(level, li, front), Own(level, li, !front))
    else []
  }

  lemma LineIsBothSides(level: Level, h: Heights, tex: TextureSizes, li: nat)
    requires li < |level.linedefs|
    ensures LineQuads(level, h, tex, li) == SidePart(level, h, tex, li, true) + SidePart(level, h, tex, li, false)
  {
    hide SideQuads;
  }

  lemma FlagsAre(flags: nat)
    ensures FlagSet(flags, LOWER_UNPEGGED) == LowerUnpegged(flags) && FlagSet(flags, UPPER_UNPEGGED) == UpperUnpegged(flags)
  {
    BitIs(flags, 8);
    BitIs(flags, 16);
  }

  lemma BitIs(flags: nat, bit: nat)
    requires bit == 8 || bit == 16
    ensures flags / bit % 2 == 1 <==> flags % (2 * bit) >= bit
  {
    if bit == 8 {
      var q, r := flags / 16, flags % 16;
      assert flags == 16 * q + r && flags / 8 == 2 * q + r / 8;
    } else {
      var q, r := flags / 32, flags % 32;
      assert flags == 32 * q + r && flags / 16 == 2 * q + r / 16;
    }
  }

  /** The heights of the sectors on both sides. */
  function OpeningOf(h: Heights, side: Sidedef, other: Option<Sidedef>): Opening {
    var back := if other.Some? then other.value.sector else side.sector;
    Opening(Floor(h, side.sector), Ceiling(h, side.sector), Floor(h, back), Ceiling(h, back))
  }

  lemma HeightsAre(h: Heights, sector: int)
    ensures HeightAt(h.floor, sector) == Floor(h, sector) && HeightAt(h.ceiling, sector) == Ceiling(h, sector)
  {
  }

  /** The strips of one kind among those of a side: one at most. */
  function OfKind(level: Level, h: Heights, tex: TextureSizes, li: nat, front: bool, kind: Kind): seq<Quad>
    requires li < |level.linedefs| && HasEnds(level, li) && Own(level, li, front).Some?
  {
    var p, other := PlacingOf(level, li, front), Own(level, li, !front);
    var o := OpeningOf(h, p.side, other);
    match kind
    case Middle =>
      if other.None? then Strip(p, tex, Middle, p.side.middleTexture, o.frontFloor, o.frontCeiling, o, false) else []
    case Upper => if other.Some? then UpperQuads(level, tex, p, other.value, o) else []
    case Lower => if other.Some? then LowerQuads(tex, p, o) else []
    case MiddleMasked => if other.Some? then MaskedQuads(tex, p, o) else []
  }

  lemma SideIsKinds(level: Level, h: Heights, tex: TextureSizes, li: nat, front: bool)
    requires li < |level.linedefs| && HasEnds(level, li) && Own(level, li, front).Some?
    ensures SidePart(level, h, tex, li, front)
         == OfKind(level, h, tex, li, front, Middle) + OfKind(level, h, tex, li, front, Upper)
            + OfKind(level, h, tex, li, front, Lower) + OfKind(level, h, tex, li, front, MiddleMasked)
  {
    var side, other := Own(level, li, front).value, Own(level, li, !front);
    HeightsAre(h, side.sector);
    if other.Some? {
      HeightsAre(h, other.value.sector);
    }
    hide UpperQuads, LowerQuads, MaskedQuads, Strip, Floor, Ceiling, HeightAt, Own;
  }

  /** The anchor is the table's. */
  lemma AnchorHangs(h: Heights, flags: nat, side: Sidedef, other: Option<Sidedef>, kind: Kind, height: real)
    requires kind != Middle ==> other.Some?
    ensures Hangs(h, flags, side, other, kind, height,
                  WallTopAnchor(kind, flags, side.yOffset, height, OpeningOf(h, side, other)))
    ensures kind == MiddleMasked ==>
              WallTopAnchor(kind, flags, side.yOffset, height, OpeningOf(h, side, other))
              == MaskedRow0(h, flags, side, other.value, height)
  {
    FlagsAre(flags);
    hide FlagSet, LowerUnpegged, UpperUnpegged, Floor, Ceiling;
  }

  /** One strip, or none. */
  lemma StripIs(p: Placing, tex: TextureSizes, kind: Kind, texture: string, zBottom: real, zTop: real, o: Opening, clampV: bool)
    ensures var qs := Strip(p, tex, kind, texture, zBottom, zTop, o, clampV);
            if texture == "-" || texture == "" || tex(texture).None? then qs == []
            else
              var row0 := WallTopAnchor(kind, p.flags, p.side.yOffset, tex(texture).value, o);
              var top := if clampV && row0 < zTop then row0 else zTop;
              var bottom := if clampV && row0 - tex(texture).value > zBottom then row0 - tex(texture).value else zBottom;
              qs == if bottom < top
                    then [Quad(p.linedef, p.sidedef, kind, p.from, p.to, top, bottom, row0, p.side.xOffset, texture,
                               p.side.sector, p.lightDelta, clampV)]
                    else []
  {
    hide WallTopAnchor;
  }

  /** The anchor of this side's texture of one kind. */
  lemma KindHangs(level: Level, h: Heights, tex: TextureSizes, li: nat, front: bool, kind: Kind)
    requires li < |level.linedefs| && HasEnds(level, li) && Own(level, li, front).Some?
    requires var side, other := Own(level, li, front).value, Own(level, li, !front);
             tex(TextureFor(side, kind)).Some? && (kind != Middle ==> other.Some?)
    ensures var side, other := Own(level, li, front).value, Own(level, li, !front);
            var height := tex(TextureFor(side, kind)).value;
            var p := PlacingOf(level, li, front);
            var row0 := WallTopAnchor(kind, p.flags, p.side.yOffset, height, OpeningOf(h, side, other));
            && Hangs(h, level.linedefs[li].flags, side, other, kind, height, row0)
            && (kind == MiddleMasked ==> row0 == MaskedRow0(h, level.linedefs[li].flags, side, other.value, height))
  {
    var side, other := Own(level, li, front).value, Own(level, li, !front);
    AnchorHangs(h, level.linedefs[li].flags, side, other, kind, tex(TextureFor(side, kind)).value);
    hide Hangs, WallTopAnchor, MaskedRow0;
  }

  /** A side's own quad is a strip once it spans and hangs as it should. */
  lemma SideStrip(level: Level, h: Heights, tex: TextureSizes, li: nat, front: bool, q: Quad)
    requires li < |level.linedefs| && HasEnds(level, li) && Own(level, li, front).Some?
    requires var p, side := PlacingOf(level, li, front), Own(level, li, front).value;
             && q.linedef == p.linedef && q.sidedef == p.sidedef && q.from == p.from && q.to == p.to
             && q.uOffset == p.side.xOffset && q.sector == p.side.sector && q.lightDelta == p.lightDelta
             && q.texture == TextureFor(side, q.kind) && Textured(side, q.kind, tex)
             && q.clampV == q.kind.MiddleMasked? && q.zBottom < q.zTop
             && Spans(h, side, Own(level, li, !front), q, tex(q.texture).value)
             && Hangs(h, level.linedefs[li].flags, side, Own(level, li, !front), q.kind, tex(q.texture).value, q.worldTopZ)
    ensures IsStrip(level, h, tex, li, front, q)
  {
    hide Spans, Hangs, Own, HasEnds, Textured;
  }

  /** Of each kind there is a strip exactly when there is something to draw, and it hangs by the table. */
  lemma KindExactly(level: Level, h: Heights, tex: TextureSizes, li: nat, front: bool, kind: Kind)
    requires li < |level.linedefs| && HasEnds(level, li) && Own(level, li, front).Some?
    ensures var qs := OfKind(level, h, tex, li, front, kind);
            && |qs| == (if Shows(level, h, tex, li, front, kind) then 1 else 0)
            && (qs != [] ==> qs[0].kind == kind && IsStrip(level, h, tex, li, front, qs[0]))
  {
    hide OfKind, Shows, IsStrip, Own, HasEnds;
    match kind
    case Middle => MiddleExactly(level, h, tex, li, front);
    case Upper => UpperExactly(level, h, tex, li, front);
    case Lower => LowerExactly(level, h, tex, li, front);
    case MiddleMasked => MaskedExactly(level, h, tex, li, front);
  }

  lemma MiddleExactly(level: Level, h: Heights, tex: TextureSizes, li: nat, front: bool)
    requires li < |level.linedefs| && HasEnds(level, li) && Own(level, li, front).Some?
    ensures var qs := OfKind(level, h, tex, li, front, Middle);
            && |qs| == (if Shows(level, h, tex, li, front, Middle) then 1 else 0)
            && (qs != [] ==> qs[0].kind == Middle && IsStrip(level, h, tex, li, front, qs[0]))
  {
    hide WallTopAnchor, Hangs, Floor, Ceiling, Own, Sky, MaskedRow0, Strip, IsStrip, HasEnds, OpenTop, OpenBottom;
    var p, other := PlacingOf(level, li, front), Own(level, li, !front);
    var o := OpeningOf(h, p.side, other);
    StripIs(p, tex, Middle, p.side.middleTexture, o.frontFloor, o.frontCeiling, o, false);
    var qs := OfKind(level, h, tex, li, front, Middle);
    if qs != [] {
      KindHangs(level, h, tex, li, front, Middle);
      SideStrip(level, h, tex, li, front, qs[0]);
    }
  }

  lemma UpperExactly(level: Level, h: Heights, tex: TextureSizes, li: nat, front: bool)
    requires li < |level.linedefs| && HasEnds(level, li) && Own(level, li, front).Some?
    ensures var qs := OfKind(level, h, tex, li, front, Upper);
            && |qs| == (if Shows(level, h, tex, li, front, Upper) then 1 else 0)
            && (qs != [] ==> qs[0].kind == Upper && IsStrip(level, h, tex, li, front, qs[0]))
  {
    hide WallTopAnchor, Hangs, Floor, Ceiling, Own, Sky, OpenToSky, MaskedRow0, Strip, IsStrip, HasEnds, OpenTop, OpenBottom;
    var p, other := PlacingOf(level, li, front), Own(level, li, !front);
    var o := OpeningOf(h, p.side, other);
    SkyIs(level, p.side.sector);
    if other.Some? {
      SkyIs(level, other.value.sector);
    }
    StripIs(p, tex, Upper, p.side.upperTexture, o.backCeiling, o.frontCeiling, o, false);
    var qs := OfKind(level, h, tex, li, front, Upper);
    if qs != [] {
      KindHangs(level, h, tex, li, front, Upper);
      SideStrip(level, h, tex, li, front, qs[0]);
    }
  }

  lemma LowerExactly(level: Level, h: Heights, tex: TextureSizes, li: nat, front: bool)
    requires li < |level.linedefs| && HasEnds(level, li) && Own(level, li, front).Some?
    ensures var qs := OfKind(level, h, tex, li, front, Lower);
            && |qs| == (if Shows(level, h, tex, li, front, Lower) then 1 else 0)
            && (qs != [] ==> qs[0].kind == Lower && IsStrip(level, h, tex, li, front, qs[0]))
  {
    hide WallTopAnchor, Hangs, Floor, Ceiling, Own, Sky, MaskedRow0, Strip, IsStrip, HasEnds, OpenTop, OpenBottom;
    var p, other := PlacingOf(level, li, front), Own(level, li, !front);
    var o := OpeningOf(h, p.side, other);
    StripIs(p, tex, Lower, p.side.lowerTexture, o.frontFloor, o.backFloor, o, false);
    var qs := OfKind(level, h, tex, li, front, Lower);
    if qs != [] {
      KindHangs(level, h, tex, li, front, Lower);
      SideStrip(level, h, tex, li, front, qs[0]);
    }
  }

  lemma MaskedExactly(level: Level, h: Heights, tex: TextureSizes, li: nat, front: bool)
    requires li < |level.linedefs| && HasEnds(level, li) && Own(level, li, front).Some?
    ensures var qs := OfKind(level, h, tex, li, front, MiddleMasked);
            && |qs| == (if Shows(level, h, tex, li, front, MiddleMasked) then 1 else 0)
            && (qs != [] ==> qs[0].kind == MiddleMasked && IsStrip(level, h, tex, li, front, qs[0]))
  {
    hide WallTopAnchor, Hangs, Floor, Ceiling, Own, Sky, MaskedRow0, Strip, IsStrip, HasEnds;
    var p, other := PlacingOf(level, li, front), Own(level, li, !front);
    var o := OpeningOf(h, p.side, other);
    StripIs(p, tex, MiddleMasked, p.side.middleTexture, Max(o.frontFloor, o.backFloor), Min(o.frontCeiling, o.backCeiling), o, true);
    if other.Some? && tex(p.side.middleTexture).Some? {
      KindHangs(level, h, tex, li, front, MiddleMasked);
    }
    var qs := OfKind(level, h, tex, li, front, MiddleMasked);
    if qs != [] {
      SideStrip(level, h, tex, li, front, qs[0]);
    }
  }

  lemma SkyIs(level: Level, sector: int)
    ensures OpenToSky(level, sector) == Sky(level, sector)
  {
  }

  /**
   * The strips of one side: each is right, there is one of a kind exactly when there is something
   * to draw, never two, and they come as middle, upper, lower, masked middle.
   */
  lemma SideExactly(level: Level, h: Heights, tex: TextureSizes, li: nat, front: bool)
    requires li < |level.linedefs|
    ensures var qs := SidePart(level, h, tex, li, front);
            && (forall i :: 0 <= i < |qs| ==> IsStrip(level, h, tex, li, front, qs[i]) && Shows(level, h, tex, li, front, qs[i].kind))
            && (forall kind :: Shows(level, h, tex, li, front, kind) ==> exists i :: 0 <= i < |qs| && qs[i].kind == kind)
            && (forall i, j :: 0 <= i < j < |qs| ==> Rank(qs[i].kind) < Rank(qs[j].kind))
  {
    if HasEnds(level, li) && Own(level, li, front).Some? {
      hide SidePart, OfKind, Shows, IsStrip, HasEnds, Own, Rank;
      SideIsKinds(level, h, tex, li, front);
      var a, b, c, d := OfKind(level, h, tex, li, front, Middle), OfKind(level, h, tex, li, front, Upper),
                        OfKind(level, h, tex, li, front, Lower), OfKind(level, h, tex, li, front, MiddleMasked);
      KindExactly(level, h, tex, li, front, Middle);
      KindExactly(level, h, tex, li, front, Upper);
      KindExactly(level, h, tex, li, front, Lower);
      KindExactly(level, h, tex, li, front, MiddleMasked);
      InRankOrder(a, b, c, d);
      forall kind | Shows(level, h, tex, li, front, kind)
        ensures exists i :: 0 <= i < |SidePart(level, h, tex, li, front)| && SidePart(level, h, tex, li, front)[i].kind == kind
      {
        AnyKind(kind);
      }
    } else {
      hide SideQuads, IsStrip;
    }
  }

  lemma AnyKind(kind: Kind)
    ensures kind == Middle || kind == Upper || kind == Lower || kind == MiddleMasked
  {
  }

  function Rank(kind: Kind): nat {
    match kind case Middle => 0 case Upper => 1 case Lower => 2 case MiddleMasked => 3
  }

  lemma InRankOrder(a: seq<Quad>, b: seq<Quad>, c: seq<Quad>, d: seq<Quad>)
    requires |a| <= 1 && |b| <= 1 && |c| <= 1 && |d| <= 1
    requires (a != [] ==> a[0].kind == Middle) && (b != [] ==> b[0].kind == Upper)
    requires (c != [] ==> c[0].kind == Lower) && (d != [] ==> d[0].kind == MiddleMasked)
    ensures var qs := a + b + c + d;
            && (forall i, j :: 0 <= i < j < |qs| ==> Rank(qs[i].kind) < Rank(qs[j].kind))
            && (forall i :: 0 <= i < |qs| ==> qs[i] in a || qs[i] in b || qs[i] in c || qs[i] in d)
            && (a != [] ==> qs[0] == a[0]) && (b != [] ==> qs[|a|] == b[0])
            && (c != [] ==> qs[|a| + |b|] == c[0]) && (d != [] ==> qs[|a| + |b| + |c|] == d[0])
  {
  }

  // ----- the whole level -----------------------------------------------------------------------

  /** The line is among those asked for: all of them, or those with a side in one of the sectors. */
  predicate Asked(level: Level, only: Option<set<int>>, li: nat)
    requires li < |level.linedefs|
  {
    only.None? || exists front: bool :: Own(level, li, front).Some? && Own(level, li, front).value.sector in only.value
  }

  lemma AskedIsWanted(level: Level, only: Option<set<int>>, li: nat)
    requires li < |level.linedefs|
    ensures Wanted(level, only, li) <==> Asked(level, only, li)
  {
    if only.Some? {
      assert FrontOf(level, level.linedefs[li]) == Own(level, li, true);
      assert BackOf(level, level.linedefs[li]) == Own(level, li, false);
    }
  }

  /** How many strips the first `n` lines show. */
  function Shown(level: Level, h: Heights, tex: TextureSizes, only: Option<set<int>>, n: nat): nat
    requires n <= |level.linedefs|
  {
    if n == 0 then 0
    else
      Shown(level, h, tex, only, n - 1)
      + if Asked(level, only, n - 1) then ShownBy(level, h, tex, n - 1, true) + ShownBy(level, h, tex, n - 1, false) else 0
  }

  function ShownBy(level: Level, h: Heights, tex: TextureSizes, li: nat, front: bool): nat
    requires li < |level.linedefs|
  {
    One(Shows(level, h, tex, li, front, Middle)) + One(Shows(level, h, tex, li, front, Upper))
    + One(Shows(level, h, tex, li, front, Lower)) + One(Shows(level, h, tex, li, front, MiddleMasked))
  }

  function One(b: bool): nat {
    if b then 1 else 0
  }

  lemma SideCount(level: Level, h: Heights, tex: TextureSizes, li: nat, front: bool)
    requires li < |level.linedefs|
    ensures |SidePart(level, h, tex, li, front)| == ShownBy(level, h, tex, li, front)
  {
    if HasEnds(level, li) && Own(level, li, front).Some? {
      SideIsKinds(level, h, tex, li, front);
      KindExactly(level, h, tex, li, front, Middle);
      KindExactly(level, h, tex, li, front, Upper);
      KindExactly(level, h, tex, li, front, Lower);
      KindExactly(level, h, tex, li, front, MiddleMasked);
      hide SidePart, OfKind, Shows, IsStrip;
    }
  }

  /** A strip of one side, with something to draw. */
  predicate OfSide(level: Level, h: Heights, tex: TextureSizes, li: nat, front: bool, q: Quad)
    requires li < |level.linedefs|
  {
    IsStrip(level, h, tex, li, front, q) && Shows(level, h, tex, li, front, q.kind)
  }

  /** A strip of the first `n` lines. */
  ghost predicate ShownStrip(level: Level, h: Heights, tex: TextureSizes, only: Option<set<int>>, n: nat, q: Quad)
    requires n <= |level.linedefs|
  {
    exists li: nat, front: bool :: li < n && Asked(level, only, li) && OfSide(level, h, tex, li, front, q)
  }

  /** The quads hold the strip of one kind of one side. */
  ghost predicate Holds(qs: seq<Quad>, level: Level, h: Heights, tex: TextureSizes, li: nat, front: bool, kind: Kind)
    requires li < |level.linedefs|
  {
    exists i :: 0 <= i < |qs| && qs[i].kind == kind && IsStrip(level, h, tex, li, front, qs[i])
  }

  lemma HoldsMore(a: seq<Quad>, b: seq<Quad>, level: Level, h: Heights, tex: TextureSizes, li: nat, front: bool, kind: Kind)
    requires li < |level.linedefs| && (Holds(a, level, h, tex, li, front, kind) || Holds(b, level, h, tex, li, front, kind))
    ensures Holds(a + b, level, h, tex, li, front, kind)
  {
    hide IsStrip;
    if Holds(a, level, h, tex, li, front, kind) {
      var i :| 0 <= i < |a| && a[i].kind == kind && IsStrip(level, h, tex, li, front, a[i]);
      assert (a + b)[i] == a[i];
    } else {
      var i :| 0 <= i < |b| && b[i].kind == kind && IsStrip(level, h, tex, li, front, b[i]);
      assert (a + b)[|a| + i] == b[i];
    }
  }

  /** What the list of a line's quads holds. */
  lemma LineExactly(level: Level, h: Heights, tex: TextureSizes, li: nat)
    requires li < |level.linedefs|
    ensures var qs := LineQuads(level, h, tex, li);
            && |qs| == ShownBy(level, h, tex, li, true) + ShownBy(level, h, tex, li, false)
            && (forall i :: 0 <= i < |qs| ==> OfSide(level, h, tex, li, true, qs[i]) || OfSide(level, h, tex, li, false, qs[i]))
            && (forall front: bool, kind :: Shows(level, h, tex, li, front, kind) ==> Holds(qs, level, h, tex, li, front, kind))
  {
    hide IsStrip, Shows, SidePart, LineQuads, ShownBy, Holds;
    LineIsBothSides(level, h, tex, li);
    SideCount(level, h, tex, li, true);
    SideCount(level, h, tex, li, false);
    SideExactly(level, h, tex, li, true);
    SideExactly(level, h, tex, li, false);
    var a, b := SidePart(level, h, tex, li, true), SidePart(level, h, tex, li, false);
    forall front: bool, kind | Shows(level, h, tex, li, front, kind)
      ensures Holds(LineQuads(level, h, tex, li), level, h, tex, li, front, kind)
    {
      SideHolds(level, h, tex, li, front, kind);
      HoldsMore(a, b, level, h, tex, li, front, kind);
    }
  }

  lemma SideHolds(level: Level, h: Heights, tex: TextureSizes, li: nat, front: bool, kind: Kind)
    requires li < |level.linedefs| && Shows(level, h, tex, li, front, kind)
    ensures Holds(SidePart(level, h, tex, li, front), level, h, tex, li, front, kind)
  {
    hide IsStrip, Shows, SidePart;
    SideExactly(level, h, tex, li, front);
  }

  lemma {:induction false} UpToExactly(level: Level, h: Heights, tex: TextureSizes, only: Option<set<int>>, n: nat)
    requires n <= |level.linedefs|
    ensures var qs := QuadsUpTo(level, h, tex, only, n);
            && |qs| == Shown(level, h, tex, only, n)
            && (forall i :: 0 <= i < |qs| ==> ShownStrip(level, h, tex, only, n, qs[i]))
            && (forall li: nat, front: bool, kind :: li < n && Asked(level, only, li) && Shows(level, h, tex, li, front, kind) ==>
                  Holds(qs, level, h, tex, li, front, kind))
  {
    hide OfSide, IsStrip, Shows, LineQuads, ShownBy, Holds, Asked, Wanted;
    if n > 0 {
      var m: nat := n - 1;
      UpToExactly(level, h, tex, only, m);
      AskedIsWanted(level, only, m);
      LineExactly(level, h, tex, m);
      UpToStep(level, h, tex, only, m);
      hide QuadsUpTo;
      var before, last := QuadsUpTo(level, h, tex, only, m), if Wanted(level, only, m) then LineQuads(level, h, tex, m) else [];
      var qs := before + last;
      forall i | 0 <= i < |qs| ensures ShownStrip(level, h, tex, only, n, qs[i]) {
        assert i < |before| ==> ShownStrip(level, h, tex, only, m, before[i]);
      }
      forall li: nat, front: bool, kind | li < n && Asked(level, only, li) && Shows(level, h, tex, li, front, kind)
        ensures Holds(qs, level, h, tex, li, front, kind)
      {
        HoldsMore(before, last, level, h, tex, li, front, kind);
      }
    }
  }

  /**
   * The level's walls, or those touching some sectors: every quad is a strip of one side of a line
   * asked for, with something to draw, running and hanging by the source's table; every such strip
   * is there; and there are exactly as many quads as strips.
   */
  lemma WallsExactly(level: Level, h: Heights, tex: TextureSizes, only: Option<set<int>>)
    ensures var qs, n := WallQuads(level, h, tex, only), |level.linedefs|;
            && |qs| == Shown(level, h, tex, only, n)
            && (forall i :: 0 <= i < |qs| ==> ShownStrip(level, h, tex, only, n, qs[i]))
            && (forall li: nat, front: bool, kind :: li < n && Asked(level, only, li) && Shows(level, h, tex, li, front, kind) ==>
                  Holds(qs, level, h, tex, li, front, kind))
  {
    UpToExactly(level, h, tex, only, |level.linedefs|);
    hide IsStrip, Shows, ShownStrip, Holds, Asked, Shown, QuadsUpTo;
    WholeLevel(level, h, tex, only);
  }
}
