/**
 * Wall geometry of client/src/map/walls.ts and the renderer's split of it into quads built once and
 * quads rebuilt each frame (client/src/render/renderer.ts), over exact reals.
 */
module Walls {
  import opened Wrappers

  const NO_SIDEDEF := 0xffff
  const UPPER_UNPEGGED := 0x0008
  const LOWER_UNPEGGED := 0x0010
  const SKY_FLAT := "F_SKY1"

  datatype Vertex = Vertex(x: real, y: real)

  datatype Linedef = Linedef(startVertex: int, endVertex: int, flags: nat, frontSidedef: int, backSidedef: int)

  datatype Sidedef = Sidedef(
    xOffset: real, yOffset: real, upperTexture: string, lowerTexture: string, middleTexture: string, sector: int)

  datatype Sector = Sector(floorHeight: real, ceilingHeight: real, ceilingTexture: string)

  datatype Level = Level(linedefs: seq<Linedef>, sidedefs: seq<Sidedef>, vertexes: seq<Vertex>, sectors: seq<Sector>)

  datatype Heights = Heights(floor: seq<real>, ceiling: seq<real>)

  /** Height of a texture; `None` for one that is missing. */
  type TextureSizes = string -> Option<real>

  datatype Kind = Middle | Upper | Lower | MiddleMasked

  datatype Quad = Quad(
    linedef: nat, sidedef: int, kind: Kind, from: Vertex, to: Vertex, zTop: real, zBottom: real, worldTopZ: real,
    uOffset: real, texture: string, sector: int, lightDelta: int, clampV: bool)

  function Lookup<T>(s: seq<T>, i: int): Option<T> {
    if 0 <= i < |s| then Some(s[i]) else None
  }

  function HeightAt(s: seq<real>, i: int): real {
    if 0 <= i < |s| then s[i] else 0.0
  }

  function Min(a: real, b: real): real {
    if a < b then a else b
  }

  function Max(a: real, b: real): real {
    if a > b then a else b
  }

  // ----- one side of a line --------------------------------------------------------------------

  predicate FlagSet(flags: nat, bit: nat)
    requires bit > 0
  {
    flags / bit % 2 == 1
  }

  /** Heights of the two sectors a side sees. */
  datatype Opening = Opening(frontFloor: real, frontCeiling: real, backFloor: real, backCeiling: real)

  /** World height of texture row 0. */
  function WallTopAnchor(kind: Kind, flags: nat, yOffset: real, texHeight: real, o: Opening): real {
    var lowerUnpegged, upperUnpegged := FlagSet(flags, LOWER_UNPEGGED), FlagSet(flags, UPPER_UNPEGGED);
    match kind
    case Middle => (if lowerUnpegged then o.frontFloor + texHeight else o.frontCeiling) + yOffset
    case Upper => (if upperUnpegged then o.frontCeiling else o.backCeiling + texHeight) + yOffset
    case Lower => (if lowerUnpegged then o.frontCeiling else o.backFloor) + yOffset
    case MiddleMasked =>
      (if lowerUnpegged then Max(o.frontFloor, o.backFloor) + texHeight else Min(o.frontCeiling, o.backCeiling)) + yOffset
  }

  /** Everything about a side that does not move. */
  datatype Placing = Placing(
    linedef: nat, flags: nat, sidedef: int, side: Sidedef, from: Vertex, to: Vertex, lightDelta: int)

  /** The quad of one strip, or nothing when it has no texture or no height. */
  function Strip(p: Placing, tex: TextureSizes, kind: Kind, texture: string, zBottom: real, zTop: real, o: Opening,
                 clampV: bool): seq<Quad> {
    if texture == "-" || texture == "" || tex(texture).None? then []
    else
      var height := tex(texture).value;
      var worldTopZ := WallTopAnchor(kind, p.flags, p.side.yOffset, height, o);
      var top := if clampV then Min(zTop, worldTopZ) else zTop;
      var bottom := if clampV then Max(zBottom, worldTopZ - height) else zBottom;
      if top - bottom <= 0.0 then []
      else [Quad(p.linedef, p.sidedef, kind, p.from, p.to, top, bottom, worldTopZ, p.side.xOffset, texture,
                 p.side.sector, p.lightDelta, clampV)]
  }

  predicate OpenToSky(level: Level, sector: int) {
    match Lookup(level.sectors, sector) case Some(s) => s.ceilingTexture == SKY_FLAT case None => false
  }

  function SideQuads(level: Level, h: Heights, tex: TextureSizes, p: Placing, other: Option<Sidedef>): seq<Quad> {
    var front := p.side.sector;
    var frontFloor, frontCeiling := HeightAt(h.floor, front), HeightAt(h.ceiling, front);
    match other
    case None =>
      Strip(p, tex, Middle, p.side.middleTexture, frontFloor, frontCeiling,
            Opening(frontFloor, frontCeiling, frontFloor, frontCeiling), false)
    case Some(back) =>
      var o := Opening(frontFloor, frontCeiling, HeightAt(h.floor, back.sector), HeightAt(h.ceiling, back.sector));
      UpperQuads(level, tex, p, back, o) + LowerQuads(tex, p, o) + MaskedQuads(tex, p, o)
  }

  function UpperQuads(level: Level, tex: TextureSizes, p: Placing, back: Sidedef, o: Opening): seq<Quad> {
    if o.backCeiling < o.frontCeiling && !(OpenToSky(level, p.side.sector) && OpenToSky(level, back.sector))
    then Strip(p, tex, Upper, p.side.upperTexture, o.backCeiling, o.frontCeiling, o, false) else []
  }

  function LowerQuads(tex: TextureSizes, p: Placing, o: Opening): seq<Quad> {
    if o.backFloor > o.frontFloor
    then Strip(p, tex, Lower, p.side.lowerTexture, o.frontFloor, o.backFloor, o, false) else []
  }

  function MaskedQuads(tex: TextureSizes, p: Placing, o: Opening): seq<Quad> {
    var openTop, openBottom := Min(o.frontCeiling, o.backCeiling), Max(o.frontFloor, o.backFloor);
    if openTop > openBottom
    then Strip(p, tex, MiddleMasked, p.side.middleTexture, openBottom, openTop, o, true) else []
  }

  /** A masked middle is drawn once: inside the opening, and never past its own texture. */
  lemma MaskedIsClipped(tex: TextureSizes, p: Placing, o: Opening, q: Quad)
    requires q in MaskedQuads(tex, p, o)
    ensures q.zBottom < q.zTop && q.zTop <= Min(o.frontCeiling, o.backCeiling) && q.zBottom >= Max(o.frontFloor, o.backFloor)
    ensures tex(q.texture).Some? && q.zTop <= q.worldTopZ && q.worldTopZ - q.zBottom <= tex(q.texture).value
  {
  }

  // ----- whole lines ---------------------------------------------------------------------------

  function FrontOf(level: Level, line: Linedef): Option<Sidedef> {
    if line.frontSidedef == NO_SIDEDEF then None else Lookup(level.sidedefs, line.frontSidedef)
  }

  function BackOf(level: Level, line: Linedef): Option<Sidedef> {
    if line.backSidedef == NO_SIDEDEF then None else Lookup(level.sidedefs, line.backSidedef)
  }

  function LightDelta(v1: Vertex, v2: Vertex): int {
    if v2.y - v1.y == 0.0 then -16 else if v2.x - v1.x == 0.0 then 16 else 0
  }

  /** Both sides of one linedef, front first. */
  function LineQuads(level: Level, h: Heights, tex: TextureSizes, li: nat): seq<Quad>
    requires li < |level.linedefs|
  {
    var line := level.linedefs[li];
    var front, back := FrontOf(level, line), BackOf(level, line);
    var v1, v2 := Lookup(level.vertexes, line.startVertex), Lookup(level.vertexes, line.endVertex);
    if v1.None? || v2.None? then []
    else
      var delta := LightDelta(v1.value, v2.value);
      (if front.None? then []
       else SideQuads(level, h, tex, Placing(li, line.flags, line.frontSidedef, front.value, v1.value, v2.value, delta), back))
      + (if back.None? then []
         else SideQuads(level, h, tex, Placing(li, line.flags, line.backSidedef, back.value, v2.value, v1.value, delta), front))
  }

  predicate SideIn(side: Option<Sidedef>, sectors: set<int>) {
    side.Some? && side.value.sector in sectors
  }

  /** The linedef touches one of the sectors. */
  predicate Touches(level: Level, sectors: set<int>, li: nat)
    requires li < |level.linedefs|
  {
    SideIn(FrontOf(level, level.linedefs[li]), sectors) || SideIn(BackOf(level, level.linedefs[li]), sectors)
  }

  predicate Wanted(level: Level, only: Option<set<int>>, li: nat)
    requires li < |level.linedefs|
  {
    only.None? || Touches(level, only.value, li)
  }

  /** Quads of the first n linedefs. */
  function QuadsUpTo(level: Level, h: Heights, tex: TextureSizes, only: Option<set<int>>, n: nat): seq<Quad>
    requires n <= |level.linedefs|
  {
    if n == 0 then []
    else
      QuadsUpTo(level, h, tex, only, n - 1) + if Wanted(level, only, n - 1) then LineQuads(level, h, tex, n - 1) else []
  }

  function WallQuads(level: Level, h: Heights, tex: TextureSizes, only: Option<set<int>>): seq<Quad> {
    QuadsUpTo(level, h, tex, only, |level.linedefs|)
  }

  /** `emitSide`: the strips of one side appended to the shared list. */
  method EmitSide(quads: seq<Quad>, level: Level, h: Heights, tex: TextureSizes, p: Placing, other: Option<Sidedef>)
    returns (r: seq<Quad>)
    ensures r == quads + SideQuads(level, h, tex, p, other)
  {
    hide Strip;
    var front := p.side.sector;
    var frontFloor, frontCeiling := HeightAt(h.floor, front), HeightAt(h.ceiling, front);
    if other.None? {
      return quads + Strip(p, tex, Middle, p.side.middleTexture, frontFloor, frontCeiling,
                           Opening(frontFloor, frontCeiling, frontFloor, frontCeiling), false);
    }
    r := quads;
    var back := other.value.sector;
    var backFloor, backCeiling := HeightAt(h.floor, back), HeightAt(h.ceiling, back);
    var o := Opening(frontFloor, frontCeiling, backFloor, backCeiling);
    if backCeiling < frontCeiling && !(OpenToSky(level, front) && OpenToSky(level, back)) {
      r := r + Strip(p, tex, Upper, p.side.upperTexture, backCeiling, frontCeiling, o, false);
    }
    assert r == quads + UpperQuads(level, tex, p, other.value, o);
    if backFloor > frontFloor {
      r := r + Strip(p, tex, Lower, p.side.lowerTexture, frontFloor, backFloor, o, false);
    }
    assert r == quads + UpperQuads(level, tex, p, other.value, o) + LowerQuads(tex, p, o);
    var openTop, openBottom := Min(frontCeiling, backCeiling), Max(frontFloor, backFloor);
    if openTop > openBottom {
      r := r + Strip(p, tex, MiddleMasked, p.side.middleTexture, openBottom, openTop, o, true);
    }
    assert r == quads + (UpperQuads(level, tex, p, other.value, o) + LowerQuads(tex, p, o) + MaskedQuads(tex, p, o));
  }

  lemma NoLines(level: Level, h: Heights, tex: TextureSizes, only: Option<set<int>>)
    ensures QuadsUpTo(level, h, tex, only, 0) == []
  {
  }

  lemma UpToStep(level: Level, h: Heights, tex: TextureSizes, only: Option<set<int>>, n: nat)
    requires n < |level.linedefs|
    ensures QuadsUpTo(level, h, tex, only, n + 1)
         == QuadsUpTo(level, h, tex, only, n) + if Wanted(level, only, n) then LineQuads(level, h, tex, n) else []
  {
  }

  /** The quads of a line whose two sides have been looked up. */
  lemma LineIs(level: Level, h: Heights, tex: TextureSizes, li: nat)
    requires li < |level.linedefs|
    ensures var line := level.linedefs[li];
            var front, back := FrontOf(level, line), BackOf(level, line);
            var v1, v2 := Lookup(level.vertexes, line.startVertex), Lookup(level.vertexes, line.endVertex);
            LineQuads(level, h, tex, li) ==
            if v1.None? || v2.None? || (front.None? && back.None?) then []
            else
              var delta := LightDelta(v1.value, v2.value);
              (if front.None? then []
               else SideQuads(level, h, tex, Placing(li, line.flags, line.frontSidedef, front.value, v1.value, v2.value, delta), back))
              + (if back.None? then []
                 else SideQuads(level, h, tex, Placing(li, line.flags, line.backSidedef, back.value, v2.value, v1.value, delta), front))
  {
    hide SideQuads, LightDelta;
  }

  /** `buildWallQuads`. */
  method BuildWallQuads(level: Level, h: Heights, tex: TextureSizes, only: Option<set<int>>) returns (quads: seq<Quad>)
    ensures quads == WallQuads(level, h, tex, only)
  {
    hide SideQuads, LineQuads, QuadsUpTo, LightDelta, Lookup;
    quads := [];
    NoLines(level, h, tex, only);
    for li := 0 to |level.linedefs|
      invariant quads == QuadsUpTo(level, h, tex, only, li)
    {
      LineIs(level, h, tex, li);
      UpToStep(level, h, tex, only, li);
      var line := level.linedefs[li];
      var front := if line.frontSidedef == NO_SIDEDEF then None else Lookup(level.sidedefs, line.frontSidedef);
      var back := if line.backSidedef == NO_SIDEDEF then None else Lookup(level.sidedefs, line.backSidedef);
      if front.None? && back.None? { continue; }
      if only.Some? {
        var touches := (front.Some? && front.value.sector in only.value) || (back.Some? && back.value.sector in only.value);
        if !touches { continue; }
      }
      var v1, v2 := Lookup(level.vertexes, line.startVertex), Lookup(level.vertexes, line.endVertex);
      if v1.None? || v2.None? { continue; }
      var lightDelta := LightDelta(v1.value, v2.value);
      if front.Some? {
        quads := EmitSide(quads, level, h, tex, Placing(li, line.flags, line.frontSidedef, front.value, v1.value, v2.value, lightDelta), back);
      }
      if back.Some? {
        quads := EmitSide(quads, level, h, tex, Placing(li, line.flags, line.backSidedef, back.value, v2.value, v1.value, lightDelta), front);
      }
      assert quads == QuadsUpTo(level, h, tex, only, li) + LineQuads(level, h, tex, li);
    }
  }

  // ----- the static and the moving quads -------------------------------------------------------

  /** The renderer's test, which looks side indices up without setting `NO_SIDEDEF` apart. */
  predicate IsDynamicQuad(level: Level, dynamic: set<int>, q: Quad) {
    q.sector in dynamic || (q.linedef < |level.linedefs| && LooksDynamic(level, dynamic, q.linedef))
  }

  predicate LooksDynamic(level: Level, dynamic: set<int>, li: nat)
    requires li < |level.linedefs|
  {
    || SideIn(Lookup(level.sidedefs, level.linedefs[li].frontSidedef), dynamic)
    || SideIn(Lookup(level.sidedefs, level.linedefs[li].backSidedef), dynamic)
  }

  function Still(level: Level, dynamic: set<int>, quads: seq<Quad>): seq<Quad> {
    if quads == [] then []
    else
      var last := quads[|quads| - 1];
      Still(level, dynamic, quads[..|quads| - 1]) + if IsDynamicQuad(level, dynamic, last) then [] else [last]
  }

  /** `filter((q) => !isDynamicQuad(q))`. */
  method FilterStill(level: Level, dynamic: set<int>, quads: seq<Quad>) returns (r: seq<Quad>)
    ensures r == Still(level, dynamic, quads)
  {
    r := [];
    for i := 0 to |quads|
      invariant r == Still(level, dynamic, quads[..i])
    {
      assert quads[..i + 1][..i] == quads[..i];
      if !IsDynamicQuad(level, dynamic, quads[i]) {
        r := r + [quads[i]];
      }
    }
    assert quads[..|quads|] == quads;
  }

  lemma {:induction false} StillJoin(level: Level, dynamic: set<int>, a: seq<Quad>, b: seq<Quad>)
    ensures Still(level, dynamic, a + b) == Still(level, dynamic, a) + Still(level, dynamic, b)
  {
    hide IsDynamicQuad;
    if b == [] {
      assert a + b == a;
    } else {
      assert (a + b)[..|a + b| - 1] == a + b[..|b| - 1];
      StillJoin(level, dynamic, a, b[..|b| - 1]);
    }
  }

  lemma {:induction false} StillAlike(level: Level, dynamic: set<int>, quads: seq<Quad>, moving: bool)
    requires forall i :: 0 <= i < |quads| ==> IsDynamicQuad(level, dynamic, quads[i]) == moving
    ensures Still(level, dynamic, quads) == if moving then [] else quads
  {
    hide IsDynamicQuad;
    if quads != [] {
      StillAlike(level, dynamic, quads[..|quads| - 1], moving);
    }
  }

  predicate FromLine(q: Quad, li: nat, sector: int) {
    q.linedef == li && q.sector == sector
  }

  lemma SideQuadsFrom(level: Level, h: Heights, tex: TextureSizes, p: Placing, other: Option<Sidedef>)
    ensures forall q :: q in SideQuads(level, h, tex, p, other) ==> FromLine(q, p.linedef, p.side.sector)
  {
  }

  /** All quads of a line are judged alike, by its raw side indices. */
  lemma LineJudgedAlike(level: Level, h: Heights, tex: TextureSizes, dynamic: set<int>, li: nat)
    requires li < |level.linedefs|
    ensures forall i :: 0 <= i < |LineQuads(level, h, tex, li)| ==>
              IsDynamicQuad(level, dynamic, LineQuads(level, h, tex, li)[i]) == LooksDynamic(level, dynamic, li)
    ensures Touches(level, dynamic, li) ==> LooksDynamic(level, dynamic, li)
  {
    hide SideQuads;
    var line := level.linedefs[li];
    var front, back := FrontOf(level, line), BackOf(level, line);
    var v1, v2 := Lookup(level.vertexes, line.startVertex), Lookup(level.vertexes, line.endVertex);
    if v1.Some? && v2.Some? {
      var delta := LightDelta(v1.value, v2.value);
      if front.Some? {
        SideQuadsFrom(level, h, tex, Placing(li, line.flags, line.frontSidedef, front.value, v1.value, v2.value, delta), back);
      }
      if back.Some? {
        SideQuadsFrom(level, h, tex, Placing(li, line.flags, line.backSidedef, back.value, v2.value, v1.value, delta), front);
      }
      forall q | q in LineQuads(level, h, tex, li)
        ensures q.linedef == li && (q.sector in dynamic ==> Touches(level, dynamic, li))
      {
      }
    }
  }

  /** Sectors outside the set stand at the same heights. */
  predicate SameOutside(a: Heights, b: Heights, dynamic: set<int>) {
    && |a.floor| == |b.floor| && |a.ceiling| == |b.ceiling|
    && (forall i :: 0 <= i < |a.floor| && i !in dynamic ==> a.floor[i] == b.floor[i])
    && (forall i :: 0 <= i < |a.ceiling| && i !in dynamic ==> a.ceiling[i] == b.ceiling[i])
  }

  /** A line that touches no moving sector looks the same at both heights. */
  lemma UntouchedLine(level: Level, a: Heights, b: Heights, tex: TextureSizes, dynamic: set<int>, li: nat)
    requires li < |level.linedefs| && SameOutside(a, b, dynamic) && !Touches(level, dynamic, li)
    ensures LineQuads(level, a, tex, li) == LineQuads(level, b, tex, li)
  {
    hide UpperQuads, LowerQuads, MaskedQuads, Strip;
  }

  /** A line the renderer takes for moving although it touches no moving sector: drawn by nobody. */
  predicate Dropped(level: Level, dynamic: set<int>, li: nat)
    requires li < |level.linedefs|
  {
    LooksDynamic(level, dynamic, li) && !Touches(level, dynamic, li)
  }

  function DroppedCount(level: Level, h: Heights, tex: TextureSizes, dynamic: set<int>, n: nat): nat
    requires n <= |level.linedefs|
  {
    if n == 0 then 0
    else
      DroppedCount(level, h, tex, dynamic, n - 1)
      + if Dropped(level, dynamic, n - 1) then |LineQuads(level, h, tex, n - 1)| else 0
  }

  /** No line with something to draw is dropped. */
  ghost predicate NothingDropped(level: Level, h: Heights, tex: TextureSizes, dynamic: set<int>, n: nat)
    requires n <= |level.linedefs|
  {
    forall li: nat :: li < n && Dropped(level, dynamic, li) ==> LineQuads(level, h, tex, li) == []
  }

  /** What the renderer draws: quads kept from the level's own heights, and those rebuilt now. */
  function Drawn(level: Level, base: Heights, now: Heights, tex: TextureSizes, dynamic: set<int>, n: nat): seq<Quad>
    requires n <= |level.linedefs|
  {
    Still(level, dynamic, QuadsUpTo(level, base, tex, None, n)) + QuadsUpTo(level, now, tex, Some(dynamic), n)
  }

  /** What the static buffer keeps of a line. */
  function Kept(level: Level, h: Heights, tex: TextureSizes, dynamic: set<int>, li: nat): seq<Quad>
    requires li < |level.linedefs|
  {
    if Touches(level, dynamic, li) || Dropped(level, dynamic, li) then [] else LineQuads(level, h, tex, li)
  }

  /** What the frame rebuilds of a line. */
  function Rebuilt(level: Level, h: Heights, tex: TextureSizes, dynamic: set<int>, li: nat): seq<Quad>
    requires li < |level.linedefs|
  {
    if Touches(level, dynamic, li) then LineQuads(level, h, tex, li) else []
  }

  lemma KeptStep(level: Level, base: Heights, now: Heights, tex: TextureSizes, dynamic: set<int>, n: nat)
    requires n < |level.linedefs| && SameOutside(base, now, dynamic)
    ensures Still(level, dynamic, QuadsUpTo(level, base, tex, None, n + 1))
         == Still(level, dynamic, QuadsUpTo(level, base, tex, None, n)) + Kept(level, now, tex, dynamic, n)
  {
    hide Still, LineQuads, Dropped, Touches, QuadsUpTo, SameOutside;
    LineDrawn(level, base, now, tex, dynamic, n);
    StillJoin(level, dynamic, QuadsUpTo(level, base, tex, None, n), LineQuads(level, base, tex, n));
    UpToStep(level, base, tex, None, n);
  }

  lemma RebuiltStep(level: Level, now: Heights, tex: TextureSizes, dynamic: set<int>, n: nat)
    requires n < |level.linedefs|
    ensures QuadsUpTo(level, now, tex, Some(dynamic), n + 1)
         == QuadsUpTo(level, now, tex, Some(dynamic), n) + Rebuilt(level, now, tex, dynamic, n)
  {
    hide LineQuads, Touches;
  }

  /** A line goes to one of the two buffers, or is dropped. */
  lemma LineCounts(level: Level, now: Heights, tex: TextureSizes, dynamic: set<int>, li: nat)
    requires li < |level.linedefs|
    ensures |Kept(level, now, tex, dynamic, li)| + |Rebuilt(level, now, tex, dynamic, li)|
            + (if Dropped(level, dynamic, li) then |LineQuads(level, now, tex, li)| else 0)
         == |LineQuads(level, now, tex, li)|
  {
    hide LineQuads, Touches;
  }

  lemma LineParts(level: Level, now: Heights, tex: TextureSizes, dynamic: set<int>, li: nat)
    requires li < |level.linedefs| && (Dropped(level, dynamic, li) ==> LineQuads(level, now, tex, li) == [])
    ensures multiset(Kept(level, now, tex, dynamic, li)) + multiset(Rebuilt(level, now, tex, dynamic, li))
         == multiset(LineQuads(level, now, tex, li))
  {
    hide LineQuads, Touches;
  }

  lemma {:induction false} DrawnCount(level: Level, base: Heights, now: Heights, tex: TextureSizes, dynamic: set<int>, n: nat)
    requires n <= |level.linedefs| && SameOutside(base, now, dynamic)
    ensures |Drawn(level, base, now, tex, dynamic, n)| + DroppedCount(level, now, tex, dynamic, n)
         == |QuadsUpTo(level, now, tex, None, n)|
  {
    if n > 0 {
      var m: nat := n - 1;
      DrawnCount(level, base, now, tex, dynamic, m);
      KeptStep(level, base, now, tex, dynamic, m);
      RebuiltStep(level, now, tex, dynamic, m);
      LineCounts(level, now, tex, dynamic, m);
      UpToStep(level, now, tex, None, m);
      DroppedStep(level, now, tex, dynamic, m);
      hide *;
      DrawnLength(level, base, now, tex, dynamic, m);
      DrawnLength(level, base, now, tex, dynamic, n);
    }
  }

  lemma DrawnLength(level: Level, base: Heights, now: Heights, tex: TextureSizes, dynamic: set<int>, n: nat)
    requires n <= |level.linedefs|
    ensures |Drawn(level, base, now, tex, dynamic, n)|
         == |Still(level, dynamic, QuadsUpTo(level, base, tex, None, n))| + |QuadsUpTo(level, now, tex, Some(dynamic), n)|
  {
    hide Still, QuadsUpTo;
  }

  lemma DroppedStep(level: Level, h: Heights, tex: TextureSizes, dynamic: set<int>, n: nat)
    requires n < |level.linedefs|
    ensures DroppedCount(level, h, tex, dynamic, n + 1)
         == DroppedCount(level, h, tex, dynamic, n) + if Dropped(level, dynamic, n) then |LineQuads(level, h, tex, n)| else 0
  {
    hide LineQuads, Dropped;
  }

  lemma {:induction false} DrawnIsAll(level: Level, base: Heights, now: Heights, tex: TextureSizes, dynamic: set<int>, n: nat)
    requires n <= |level.linedefs| && SameOutside(base, now, dynamic) && DroppedCount(level, now, tex, dynamic, n) == 0
    ensures multiset(Drawn(level, base, now, tex, dynamic, n)) == multiset(QuadsUpTo(level, now, tex, None, n))
  {
    if n > 0 {
      var m: nat := n - 1;
      ZeroCount(level, now, tex, dynamic, n);
      DrawnIsAll(level, base, now, tex, dynamic, m);
      KeptStep(level, base, now, tex, dynamic, m);
      RebuiltStep(level, now, tex, dynamic, m);
      LineParts(level, now, tex, dynamic, m);
      UpToStep(level, now, tex, None, m);
      hide *;
      DrawnParts(level, base, now, tex, dynamic, m);
      DrawnParts(level, base, now, tex, dynamic, n);
    }
  }

  lemma DrawnParts(level: Level, base: Heights, now: Heights, tex: TextureSizes, dynamic: set<int>, n: nat)
    requires n <= |level.linedefs|
    ensures multiset(Drawn(level, base, now, tex, dynamic, n))
         == multiset(Still(level, dynamic, QuadsUpTo(level, base, tex, None, n)))
            + multiset(QuadsUpTo(level, now, tex, Some(dynamic), n))
  {
    hide Still, QuadsUpTo;
  }

  lemma ZeroCount(level: Level, h: Heights, tex: TextureSizes, dynamic: set<int>, n: nat)
    requires 0 < n <= |level.linedefs| && DroppedCount(level, h, tex, dynamic, n) == 0
    ensures DroppedCount(level, h, tex, dynamic, n - 1) == 0
    ensures Dropped(level, dynamic, n - 1) ==> LineQuads(level, h, tex, n - 1) == []
  {
    hide LineQuads, Dropped;
  }

  lemma {:induction false} CountIsZeroExactly(level: Level, h: Heights, tex: TextureSizes, dynamic: set<int>, n: nat)
    requires n <= |level.linedefs|
    ensures DroppedCount(level, h, tex, dynamic, n) == 0 <==> NothingDropped(level, h, tex, dynamic, n)
  {
    hide LineQuads, Dropped;
    if n > 0 {
      CountIsZeroExactly(level, h, tex, dynamic, n - 1);
      if NothingDropped(level, h, tex, dynamic, n) && Dropped(level, dynamic, n - 1) {
        assert LineQuads(level, h, tex, n - 1) == [];
      }
    }
  }

  /** One line: kept, rebuilt or dropped. */
  lemma LineDrawn(level: Level, base: Heights, now: Heights, tex: TextureSizes, dynamic: set<int>, li: nat)
    requires li < |level.linedefs| && SameOutside(base, now, dynamic)
    ensures var kept := Still(level, dynamic, LineQuads(level, base, tex, li));
            if Touches(level, dynamic, li) then kept == [] && !Dropped(level, dynamic, li)
            else if Dropped(level, dynamic, li) then kept == []
            else kept == LineQuads(level, now, tex, li)
  {
    LineJudgedAlike(level, base, tex, dynamic, li);
    StillAlike(level, dynamic, LineQuads(level, base, tex, li), LooksDynamic(level, dynamic, li));
    if !Touches(level, dynamic, li) {
      UntouchedLine(level, base, now, tex, dynamic, li);
    }
  }

  /** The two buffers together are the whole level at the current heights exactly when nothing is dropped. */
  lemma SplitIsCompleteExactly(level: Level, base: Heights, now: Heights, tex: TextureSizes, dynamic: set<int>)
    requires SameOutside(base, now, dynamic)
    ensures var n := |level.linedefs|;
            multiset(Drawn(level, base, now, tex, dynamic, n)) == multiset(WallQuads(level, now, tex, None))
            <==> NothingDropped(level, now, tex, dynamic, n)
  {
    var n := |level.linedefs|;
    DrawnCount(level, base, now, tex, dynamic, n);
    CountIsZeroExactly(level, now, tex, dynamic, n);
    if NothingDropped(level, now, tex, dynamic, n) {
      DrawnIsAll(level, base, now, tex, dynamic, n);
    }
    hide Drawn, QuadsUpTo;
    if multiset(Drawn(level, base, now, tex, dynamic, n)) == multiset(WallQuads(level, now, tex, None)) {
      assert |multiset(Drawn(level, base, now, tex, dynamic, n))| == |multiset(WallQuads(level, now, tex, None))|;
    }
  }

  /** With fewer than 65536 sidedefs the index that means "none" finds none. */
  lemma SmallLevelDropsNothing(level: Level, dynamic: set<int>, li: nat)
    requires li < |level.linedefs| && |level.sidedefs| <= NO_SIDEDEF
    ensures !Dropped(level, dynamic, li)
  {
  }

  // ----- the renderer --------------------------------------------------------------------------

  datatype SectorState = SectorState(floor: real, ceiling: real)

  function LevelHeights(level: Level): (h: Heights)
    ensures |h.floor| == |h.ceiling| == |level.sectors|
  {
    Heights(seq(|level.sectors|, i requires 0 <= i < |level.sectors| => level.sectors[i].floorHeight),
            seq(|level.sectors|, i requires 0 <= i < |level.sectors| => level.sectors[i].ceilingHeight))
  }

  /** The snapshot's sectors laid over a set of heights; unknown indices are skipped, later entries win. */
  function Overlaid(h: Heights, view: seq<(int, SectorState)>): (r: Heights)
    requires |h.floor| == |h.ceiling|
    ensures |r.floor| == |r.ceiling| == |h.floor|
  {
    if view == [] then h
    else
      var before, (i, state) := Overlaid(h, view[..|view| - 1]), view[|view| - 1];
      if 0 <= i < |h.floor| then Heights(before.floor[i := state.floor], before.ceiling[i := state.ceiling]) else before
  }

  predicate OnlyMoves(view: seq<(int, SectorState)>, dynamic: set<int>) {
    forall i :: 0 <= i < |view| ==> view[i].0 in dynamic
  }

  lemma {:induction false} OverlayStaysInside(h: Heights, view: seq<(int, SectorState)>, dynamic: set<int>)
    requires |h.floor| == |h.ceiling| && OnlyMoves(view, dynamic)
    ensures SameOutside(h, Overlaid(h, view), dynamic)
  {
    if view != [] {
      OverlayStaysInside(h, view[..|view| - 1], dynamic);
    }
  }

  /** The renderer's wall state: heights rewritten every frame, one buffer built once, one every frame. */
  class WallRenderer {
    const level: Level
    const tex: TextureSizes
    const dynamicSectors: set<int>
    const floorHeights: array<real>
    const ceilingHeights: array<real>
    var staticQuads: seq<Quad>
    var dynamicQuads: seq<Quad>

    ghost predicate Valid()
      reads this
    {
      && floorHeights != ceilingHeights
      && floorHeights.Length == ceilingHeights.Length == |level.sectors|
      && staticQuads == Still(level, dynamicSectors, WallQuads(level, LevelHeights(level), tex, None))
    }

    ghost function Current(): Heights
      reads floorHeights, ceilingHeights
    {
      Heights(floorHeights[..], ceilingHeights[..])
    }

    constructor (level: Level, tex: TextureSizes, dynamicSectors: set<int>)
      ensures Valid() && this.level == level && this.tex == tex && this.dynamicSectors == dynamicSectors
      ensures fresh(floorHeights) && fresh(ceilingHeights)
    {
      this.level, this.tex, this.dynamicSectors := level, tex, dynamicSectors;
      floorHeights := new real[|level.sectors|];
      ceilingHeights := new real[|level.sectors|];
      staticQuads, dynamicQuads := [], [];
      new;
      ResetSectorState();
      BuildStaticWalls();
    }

    method ResetSectorState()
      requires floorHeights != ceilingHeights && floorHeights.Length == ceilingHeights.Length == |level.sectors|
      modifies floorHeights, ceilingHeights
      ensures Current() == LevelHeights(level)
    {
      for i := 0 to |level.sectors|
        invariant forall j :: 0 <= j < i ==> floorHeights[j] == level.sectors[j].floorHeight
        invariant forall j :: 0 <= j < i ==> ceilingHeights[j] == level.sectors[j].ceilingHeight
      {
        floorHeights[i] := level.sectors[i].floorHeight;
        ceilingHeights[i] := level.sectors[i].ceilingHeight;
      }
      assert Current() == LevelHeights(level);
    }

    method BuildStaticWalls()
      requires Current() == LevelHeights(level)
      modifies this`staticQuads
      ensures staticQuads == Still(level, dynamicSectors, WallQuads(level, LevelHeights(level), tex, None))
    {
      var quads := BuildWallQuads(level, Heights(floorHeights[..], ceilingHeights[..]), tex, None);
      staticQuads := FilterStill(level, dynamicSectors, quads);
    }

    /** The loop that folds the snapshot's sectors in. */
    method FoldSectors(view: seq<(int, SectorState)>)
      requires floorHeights != ceilingHeights && floorHeights.Length == ceilingHeights.Length == |level.sectors|
      modifies floorHeights, ceilingHeights
      ensures Current() == Overlaid(old(Current()), view)
    {
      ghost var h := Current();
      assert view[..0] == [];
      for i := 0 to |view|
        invariant Current() == Overlaid(h, view[..i])
      {
        assert view[..i + 1][..i] == view[..i];
        var (index, state) := view[i];
        if index < 0 || index >= floorHeights.Length { continue; }
        floorHeights[index] := state.floor;
        ceilingHeights[index] := state.ceiling;
      }
      assert view[..|view|] == view;
    }

    /** Steps 1 and 2 of `render`. */
    method Render(view: seq<(int, SectorState)>)
      requires Valid()
      modifies this`dynamicQuads, floorHeights, ceilingHeights
      ensures Valid() && staticQuads == old(staticQuads)
      ensures Current() == Overlaid(LevelHeights(level), view)
      ensures dynamicQuads == WallQuads(level, Current(), tex, Some(dynamicSectors))
      ensures OnlyMoves(view, dynamicSectors) && |level.sidedefs| <= NO_SIDEDEF ==>
                multiset(staticQuads) + multiset(dynamicQuads) == multiset(WallQuads(level, Current(), tex, None))
    {
      hide WallQuads, Still;
      ResetSectorState();
      FoldSectors(view);
      var now := Heights(floorHeights[..], ceilingHeights[..]);
      dynamicQuads := BuildWallQuads(level, now, tex, Some(dynamicSectors));
      if OnlyMoves(view, dynamicSectors) && |level.sidedefs| <= NO_SIDEDEF {
        FrameIsWhole(level, view, tex, dynamicSectors);
      }
    }
  }

  /** One frame: for every snapshot that moves only dynamic sectors, nothing is missing and nothing twice. */
  lemma FrameIsWhole(level: Level, view: seq<(int, SectorState)>, tex: TextureSizes, dynamic: set<int>)
    requires OnlyMoves(view, dynamic) && |level.sidedefs| <= NO_SIDEDEF
    ensures var now := Overlaid(LevelHeights(level), view);
            multiset(Still(level, dynamic, WallQuads(level, LevelHeights(level), tex, None)))
            + multiset(WallQuads(level, now, tex, Some(dynamic)))
            == multiset(WallQuads(level, now, tex, None))
  {
    var base := LevelHeights(level);
    OverlayStaysInside(base, view, dynamic);
    forall li: nat | li < |level.linedefs| ensures !Dropped(level, dynamic, li) {
      SmallLevelDropsNothing(level, dynamic, li);
    }
    hide Dropped;
    SplitIsCompleteExactly(level, base, Overlaid(base, view), tex, dynamic);
    hide Still, QuadsUpTo, SameOutside, Overlaid;
  }

  // ----- a level with too many sidedefs --------------------------------------------------------

  /** A room with one one-sided line, a door, and 65536 sidedefs, all but the line's own in the door's sector. */
  function DoorLevel(): (level: Level)
    ensures level.linedefs == [Linedef(0, 1, 0, 0, NO_SIDEDEF)] && |level.vertexes| == 2
    ensures |level.sidedefs| == NO_SIDEDEF + 1
    ensures level.sidedefs[0] == Sidedef(0.0, 0.0, "-", "-", "WALL", 0)
    ensures level.sidedefs[NO_SIDEDEF] == Sidedef(0.0, 0.0, "-", "-", "-", 1)
    ensures level.sectors == [Sector(0.0, 64.0, "CEIL"), Sector(0.0, 0.0, "CEIL")]
  {
    Level([Linedef(0, 1, 0, 0, NO_SIDEDEF)],
          [Sidedef(0.0, 0.0, "-", "-", "WALL", 0)] + seq(NO_SIDEDEF, _ => Sidedef(0.0, 0.0, "-", "-", "-", 1)),
          [Vertex(0.0, 0.0), Vertex(8.0, 0.0)],
          [Sector(0.0, 64.0, "CEIL"), Sector(0.0, 0.0, "CEIL")])
  }

  function AnyTexture(): TextureSizes {
    _ => Some(64.0)
  }

  /**
   * With 65536 sidedefs a one-sided line can be taken for a door, and is drawn by nobody: the
   * renderer's two buffers together are not the level, even when nothing has moved.
   */
  lemma LargeLevelDropsWall()
    ensures var level, tex, door, view := DoorLevel(), AnyTexture(), {1}, [];
            var now := Overlaid(LevelHeights(level), view);
            && |level.sidedefs| == NO_SIDEDEF + 1 && OnlyMoves(view, door)
            && multiset(Still(level, door, WallQuads(level, LevelHeights(level), tex, None)))
               + multiset(WallQuads(level, now, tex, Some(door)))
               != multiset(WallQuads(level, now, tex, None))
  {
    var level, tex := DoorLevel(), AnyTexture();
    var h := LevelHeights(level);
    OneSidedWall(level, h, tex, level.sidedefs[0], level.sidedefs[NO_SIDEDEF]);
    hide DoorLevel, AnyTexture, NothingDropped, LevelHeights, WallQuads, Still, QuadsUpTo;
    assert SameOutside(h, h, {1});
    SplitIsCompleteExactly(level, h, h, tex, {1});
    DrawnParts(level, h, h, tex, {1}, 1);
    WholeLevel(level, h, tex, None);
    WholeLevel(level, h, tex, Some({1}));
  }

  lemma WholeLevel(level: Level, h: Heights, tex: TextureSizes, only: Option<set<int>>)
    ensures WallQuads(level, h, tex, only) == QuadsUpTo(level, h, tex, only, |level.linedefs|)
  {
  }

  lemma OneSidedWall(level: Level, h: Heights, tex: TextureSizes, wall: Sidedef, door: Sidedef)
    requires level.linedefs == [Linedef(0, 1, 0, 0, NO_SIDEDEF)] && |level.vertexes| == 2
    requires |level.sidedefs| == NO_SIDEDEF + 1 && level.sidedefs[0] == wall && level.sidedefs[NO_SIDEDEF] == door
    requires wall.sector == 0 && wall.middleTexture == "WALL" && door.sector == 1 && tex("WALL") == Some(64.0)
    requires HeightAt(h.floor, 0) == 0.0 && HeightAt(h.ceiling, 0) == 64.0
    ensures !NothingDropped(level, h, tex, {1}, 1)
  {
    assert Dropped(level, {1}, 0);
    var quads := LineQuads(level, h, tex, 0);
    assert |quads| >= 1;
  }
}
