/**
 * The shelf packer of client/src/assets/atlas.ts: rectangles placed left to right on shelves,
 * pictures copied into one interleaved byte buffer, the buffer doubled until everything fits.
 */
module Atlas {
  type Byte = b: int | 0 <= b < 256

  datatype Picture = Picture(width: nat, height: nat, leftOffset: int, topOffset: int, pixels: seq<Byte>, mask: seq<Byte>)

  /** One byte of each channel per texel, as the WAD decoder makes them. */
  predicate WellFormed(p: Picture) {
    |p.pixels| == |p.mask| == p.width * p.height
  }

  datatype Entry = Entry(key: string, picture: Picture)

  datatype Rect = Rect(x: nat, y: nat, width: nat, height: nat, leftOffset: int, topOffset: int)

  // ----- addressing ----------------------------------------------------------------------------

  /** Address of the first byte of texel (x, y). */
  function Index(size: nat, x: nat, y: nat): nat {
    (y * size + x) * 2
  }

  lemma RowsApart(size: nat, y: nat, v: nat)
    requires y < v
    ensures y * size + size <= v * size
  {
    assert (v - y - 1) * size >= 0;
    assert v * size == y * size + size + (v - y - 1) * size;
  }

  lemma IndexInRange(size: nat, x: nat, y: nat)
    requires x < size && y < size
    ensures Index(size, x, y) + 1 < size * size * 2
  {
    RowsApart(size, y, size);
  }

  lemma IndexInjective(size: nat, x: nat, y: nat, u: nat, v: nat)
    requires x < size && u < size && (x != u || y != v)
    ensures Index(size, x, y) != Index(size, u, v)
    ensures Index(size, x, y) != Index(size, u, v) + 1 && Index(size, x, y) + 1 != Index(size, u, v)
  {
    if y < v {
      RowsApart(size, y, v);
    } else if v < y {
      RowsApart(size, v, y);
    }
  }

  /** Palette index and coverage at (x, y). */
  function Texel(data: seq<Byte>, size: nat, x: nat, y: nat): (Byte, Byte)
    requires |data| == size * size * 2 && x < size && y < size
  {
    IndexInRange(size, x, y);
    (data[Index(size, x, y)], data[Index(size, x, y) + 1])
  }

  lemma RowOfTexel(size: nat, t: nat)
    requires t < size * size
    ensures size > 0 && t == t / size * size + t % size && t / size < size
  {
    assert size > 0;
    var y := t / size;
    assert t == y * size + t % size;
    if y >= size {
      ScaledGrows(size, size, y);
    }
  }

  /** Every byte of the buffer is a channel of exactly one texel. */
  lemma EveryByteIsTexel(size: nat, b: nat)
    requires b < size * size * 2
    ensures exists x: nat, y: nat :: x < size && y < size && (b == Index(size, x, y) || b == Index(size, x, y) + 1)
  {
    var t := b / 2;
    var y, x := t / size, t % size;
    RowOfTexel(size, t);
    assert b == Index(size, x, y) || b == Index(size, x, y) + 1;
  }

  lemma PixelInRange(p: Picture, x: nat, y: nat)
    requires WellFormed(p) && x < p.width && y < p.height
    ensures y * p.width + x < |p.pixels|
  {
    RowsApart(p.width, y, p.height);
  }

  /** The picture's own texel. */
  function Pixel(p: Picture, x: nat, y: nat): (Byte, Byte)
    requires WellFormed(p) && x < p.width && y < p.height
  {
    PixelInRange(p, x, y);
    (p.pixels[y * p.width + x], p.mask[y * p.width + x])
  }

  /** Atlas texel (x, y) lies under the picture placed at (dx, dy). */
  predicate Covers(p: Picture, dx: nat, dy: nat, x: nat, y: nat) {
    dx <= x < dx + p.width && dy <= y < dy + p.height
  }

  // ----- the blit ------------------------------------------------------------------------------

  /** Two stores: one texel. */
  method PutTexel(data: array<Byte>, size: nat, dst: nat, x: nat, y: nat, texel: (Byte, Byte))
    requires data.Length == size * size * 2 && x < size && y < size && dst == Index(size, x, y)
    modifies data
    ensures forall u: nat, v: nat :: u < size && v < size ==>
              Texel(data[..], size, u, v) == if u == x && v == y then texel else Texel(old(data[..]), size, u, v)
  {
    IndexInRange(size, x, y);
    ghost var was := data[..];
    data[dst] := texel.0;
    data[dst + 1] := texel.1;
    forall u: nat, v: nat | u < size && v < size
      ensures Texel(data[..], size, u, v) == if u == x && v == y then texel else Texel(was, size, u, v)
    {
      IndexInRange(size, u, v);
      if u != x || v != y {
        IndexInjective(size, x, y, u, v);
      }
    }
  }

  lemma IndexNext(size: nat, x: nat, y: nat)
    ensures Index(size, x + 1, y) == Index(size, x, y) + 2
  {
  }

  lemma PixelAt(p: Picture, x: nat, y: nat, src: int)
    requires WellFormed(p) && x < p.width && y < p.height && src == y * p.width + x
    ensures 0 <= src < |p.pixels| && 0 <= src < |p.mask| && Pixel(p, x, y) == (p.pixels[src], p.mask[src])
  {
    PixelInRange(p, x, y);
  }

  /** Row `y` of the picture: the inner loop. */
  method BlitRow(data: array<Byte>, size: nat, p: Picture, dx: nat, dy: nat, y: nat)
    requires data.Length == size * size * 2 && WellFormed(p) && y < p.height
    requires dx + p.width <= size && dy + p.height <= size
    modifies data
    ensures forall u: nat, v: nat :: u < size && v < size ==>
              Texel(data[..], size, u, v) ==
              if v == dy + y && dx <= u < dx + p.width then Pixel(p, u - dx, y) else Texel(old(data[..]), size, u, v)
  {
    hide Texel, Pixel, WellFormed;
    var src := y * p.width;
    var dst := ((dy + y) * size + dx) * 2;
    assert dst == Index(size, dx, dy + y);
    hide Index;
    ghost var row := y * p.width;
    for x := 0 to p.width
      invariant src == row + x && dst == Index(size, dx + x, dy + y)
      invariant forall u: nat, v: nat :: u < size && v < size ==>
                  Texel(data[..], size, u, v) ==
                  if v == dy + y && dx <= u < dx + x then Pixel(p, u - dx, y) else Texel(old(data[..]), size, u, v)
    {
      PixelAt(p, x, y, src);
      IndexNext(size, dx + x, dy + y);
      PutTexel(data, size, dst, dx + x, dy + y, (p.pixels[src], p.mask[src]));
      src := src + 1;
      dst := dst + 2;
    }
  }

  /** `blitInto`: the picture's texels, and no others, are overwritten. */
  method BlitInto(data: array<Byte>, size: nat, p: Picture, dx: nat, dy: nat)
    requires data.Length == size * size * 2 && WellFormed(p)
    requires dx + p.width <= size && dy + p.height <= size
    modifies data
    ensures forall u: nat, v: nat :: u < size && v < size ==>
              Texel(data[..], size, u, v) ==
              if Covers(p, dx, dy, u, v) then Pixel(p, u - dx, v - dy) else Texel(old(data[..]), size, u, v)
  {
    hide Texel, Pixel;
    for y := 0 to p.height
      invariant forall u: nat, v: nat :: u < size && v < size ==>
                  Texel(data[..], size, u, v) ==
                  if Covers(p, dx, dy, u, v) && v < dy + y then Pixel(p, u - dx, v - dy)
                  else Texel(old(data[..]), size, u, v)
    {
      BlitRow(data, size, p, dx, dy, y);
    }
  }

  // ----- what a packing promises ---------------------------------------------------------------

  predicate DistinctKeys(entries: seq<Entry>) {
    forall i, j :: 0 <= i < j < |entries| ==> entries[i].key != entries[j].key
  }

  predicate AllWellFormed(entries: seq<Entry>) {
    forall i :: 0 <= i < |entries| ==> WellFormed(entries[i].picture)
  }

  predicate Inside(r: Rect, size: nat) {
    r.x + r.width <= size && r.y + r.height <= size
  }

  predicate Disjoint(a: Rect, b: Rect) {
    a.x + a.width <= b.x || b.x + b.width <= a.x || a.y + a.height <= b.y || b.y + b.height <= a.y
  }

  predicate Under(r: Rect, u: nat, v: nat) {
    r.x <= u < r.x + r.width && r.y <= v < r.y + r.height
  }

  /** The rectangle is the picture's, offsets carried through. */
  predicate RectOf(r: Rect, p: Picture) {
    r.width == p.width && r.height == p.height && r.leftOffset == p.leftOffset && r.topOffset == p.topOffset
  }

  /** The picture reads back, texel for texel, from its rectangle. */
  ghost predicate ReadsBack(data: seq<Byte>, size: nat, r: Rect, p: Picture)
    requires |data| == size * size * 2 && Inside(r, size) && RectOf(r, p) && WellFormed(p)
  {
    forall u: nat, v: nat :: Under(r, u, v) ==> Texel(data, size, u, v) == Pixel(p, u - r.x, v - r.y)
  }

  /** Keys that were not placed, in the order they were met. */
  function Unplaced(entries: seq<Entry>, rects: map<string, Rect>): seq<string> {
    if entries == [] then []
    else
      var n := |entries| - 1;
      Unplaced(entries[..n], rects) + if entries[n].key in rects then [] else [entries[n].key]
  }

  /** The rectangles belong to the entries, lie in the atlas and do not overlap. */
  ghost predicate Placed(entries: seq<Entry>, size: nat, rects: map<string, Rect>) {
    && (forall k :: k in rects ==> KeyOf(entries, k))
    && (forall i :: 0 <= i < |entries| && entries[i].key in rects ==> RectOf(rects[entries[i].key], entries[i].picture))
    && (forall k :: k in rects ==> Inside(rects[k], size))
    && Apart(rects)
  }

  /** No two rectangles share a texel. */
  predicate Apart(rects: map<string, Rect>) {
    forall a, b :: a in rects && b in rects && a != b ==> Disjoint(rects[a], rects[b])
  }

  predicate KeyOf(entries: seq<Entry>, k: string) {
    exists i :: 0 <= i < |entries| && entries[i].key == k
  }

  /** Every placed picture reads back; every texel under none of them is (0, 0). */
  ghost predicate Painted(entries: seq<Entry>, size: nat, rects: map<string, Rect>, data: seq<Byte>)
    requires Placed(entries, size, rects) && AllWellFormed(entries)
  {
    && |data| == size * size * 2
    && (forall i :: 0 <= i < |entries| && entries[i].key in rects ==>
          ReadsBack(data, size, rects[entries[i].key], entries[i].picture))
    && (forall u: nat, v: nat :: u < size && v < size && Uncovered(rects, u, v) ==> Texel(data, size, u, v) == (0, 0))
  }

  predicate Uncovered(rects: map<string, Rect>, u: nat, v: nat) {
    forall k :: k in rects ==> !Under(rects[k], u, v)
  }

  // ----- one more entry ------------------------------------------------------------------------

  lemma KeyIsNew(entries: seq<Entry>, size: nat, rects: map<string, Rect>, e: Entry)
    requires Placed(entries, size, rects) && DistinctKeys(entries + [e])
    ensures e.key !in rects
  {
    forall i | 0 <= i < |entries| ensures entries[i].key != e.key {
      KeysDiffer(entries, e, i);
    }
  }

  lemma PlacedMore(entries: seq<Entry>, size: nat, rects: map<string, Rect>, e: Entry, r: Rect)
    requires Placed(entries, size, rects) && DistinctKeys(entries + [e])
    requires RectOf(r, e.picture) && Inside(r, size) && forall k :: k in rects ==> Disjoint(rects[k], r)
    ensures e.key !in rects && Placed(entries + [e], size, rects[e.key := r])
  {
    var all, more := entries + [e], rects[e.key := r];
    KeyIsNew(entries, size, rects, e);
    forall k | k in more ensures KeyOf(all, k) {
      if k == e.key {
        assert all[|entries|].key == k;
      } else {
        var i :| 0 <= i < |entries| && entries[i].key == k;
        assert all[i].key == k;
      }
    }
    forall i | 0 <= i < |all| && all[i].key in more ensures RectOf(more[all[i].key], all[i].picture) {
      if i < |entries| {
        assert all[i].key != all[|entries|].key;
      }
    }
  }

  lemma PlacedSame(entries: seq<Entry>, size: nat, rects: map<string, Rect>, e: Entry)
    requires Placed(entries, size, rects) && DistinctKeys(entries + [e])
    ensures e.key !in rects && Placed(entries + [e], size, rects)
  {
    var all := entries + [e];
    KeyIsNew(entries, size, rects, e);
    forall k | k in rects ensures KeyOf(all, k) {
      var i :| 0 <= i < |entries| && entries[i].key == k;
      assert all[i].key == k;
    }
  }

  /** Painting into a disjoint rectangle leaves the other pictures and the blank texels alone. */
  lemma PaintedMore(entries: seq<Entry>, size: nat, rects: map<string, Rect>, data: seq<Byte>, e: Entry, r: Rect, after: seq<Byte>)
    requires Placed(entries, size, rects) && AllWellFormed(entries) && Painted(entries, size, rects, data)
    requires WellFormed(e.picture) && e.key !in rects && DistinctKeys(entries + [e])
    requires RectOf(r, e.picture) && Inside(r, size) && forall k :: k in rects ==> Disjoint(rects[k], r)
    requires |after| == |data| == size * size * 2
    requires forall u: nat, v: nat :: u < size && v < size ==>
               Texel(after, size, u, v) ==
               if Covers(e.picture, r.x, r.y, u, v) then Pixel(e.picture, u - r.x, v - r.y) else Texel(data, size, u, v)
    requires Placed(entries + [e], size, rects[e.key := r])
    ensures AllWellFormed(entries + [e]) && Painted(entries + [e], size, rects[e.key := r], after)
  {
    hide Texel, Pixel, Placed, DistinctKeys, WellFormed;
    var all, more := entries + [e], rects[e.key := r];
    assert forall i :: 0 <= i < |all| ==> all[i] == if i < |entries| then entries[i] else e;
    forall i | 0 <= i < |all| && all[i].key in more
      ensures Inside(more[all[i].key], size) && RectOf(more[all[i].key], all[i].picture)
      ensures ReadsBack(after, size, more[all[i].key], all[i].picture)
    {
      PlacedEntry(all, size, more, i);
      if i < |entries| {
        KeysDiffer(entries, e, i);
        PlacedEntry(entries, size, rects, i);
        var was := rects[entries[i].key];
        assert Disjoint(was, r) && ReadsBack(data, size, was, entries[i].picture);
        forall u: nat, v: nat | Under(was, u, v)
          ensures Texel(after, size, u, v) == Pixel(entries[i].picture, u - was.x, v - was.y)
        {
          assert !Covers(e.picture, r.x, r.y, u, v);
        }
      }
    }
    forall u: nat, v: nat | u < size && v < size && Uncovered(more, u, v) ensures Texel(after, size, u, v) == (0, 0) {
      assert !Under(more[e.key], u, v);
      forall k | k in rects ensures !Under(rects[k], u, v) {
        assert k in more && more[k] == rects[k];
      }
      assert Uncovered(rects, u, v);
    }
  }

  lemma PlacedEntry(entries: seq<Entry>, size: nat, rects: map<string, Rect>, i: nat)
    requires Placed(entries, size, rects) && i < |entries| && entries[i].key in rects
    ensures Inside(rects[entries[i].key], size) && RectOf(rects[entries[i].key], entries[i].picture)
  {
  }

  lemma KeysDiffer(entries: seq<Entry>, e: Entry, i: nat)
    requires DistinctKeys(entries + [e]) && i < |entries|
    ensures entries[i].key != e.key
  {
    assert (entries + [e])[i] == entries[i] && (entries + [e])[|entries|] == e;
  }

  lemma {:induction false} UnplacedSame(entries: seq<Entry>, rects: map<string, Rect>, more: map<string, Rect>)
    requires forall i :: 0 <= i < |entries| ==> (entries[i].key in rects <==> entries[i].key in more)
    ensures Unplaced(entries, rects) == Unplaced(entries, more)
  {
    if entries != [] {
      UnplacedSame(entries[..|entries| - 1], rects, more);
    }
  }

  lemma {:induction false} UnplacedKeys(entries: seq<Entry>, rects: map<string, Rect>)
    ensures forall k :: k in Unplaced(entries, rects) <==>
              k !in rects && KeyOf(entries, k)
  {
    if entries != [] {
      var n := |entries| - 1;
      UnplacedKeys(entries[..n], rects);
      forall k ensures k in Unplaced(entries, rects) <==> k !in rects && KeyOf(entries, k) {
        if i :| 0 <= i < |entries| && entries[i].key == k {
          assert i < n ==> entries[..n][i].key == k;
        }
        if i :| 0 <= i < n && entries[..n][i].key == k {
          assert entries[i].key == k;
        }
      }
    }
  }

  // ----- the shelf layout ----------------------------------------------------------------------

  /** Everything the packing loop carries except the buffer. */
  datatype Shelf = Shelf(rects: map<string, Rect>, y: nat, height: nat, x: nat)

  /** Shelves fill downwards, each from left to right. */
  predicate OnShelves(s: Shelf) {
    forall k :: k in s.rects ==>
      || s.rects[k].y + s.rects[k].height <= s.y
      || (s.rects[k].y == s.y && s.rects[k].x + s.rects[k].width <= s.x && s.rects[k].height <= s.height)
  }

  lemma ShelfIsDisjoint(s: Shelf, r: Rect)
    requires OnShelves(s) && r.x == s.x && r.y == s.y
    ensures forall k :: k in s.rects ==> Disjoint(s.rects[k], r)
  {
  }

  predicate TooBig(e: Entry, size: nat) {
    e.picture.width > size || e.picture.height > size
  }

  /** Moves to a new shelf when the picture does not fit beside the cursor. */
  function Wrapped(s: Shelf, e: Entry, size: nat): Shelf {
    if s.x + e.picture.width > size then Shelf(s.rects, s.y + s.height, 0, 0) else s
  }

  function RectAt(s: Shelf, e: Entry): Rect {
    Rect(s.x, s.y, e.picture.width, e.picture.height, e.picture.leftOffset, e.picture.topOffset)
  }

  function Advanced(s: Shelf, e: Entry): Shelf {
    Shelf(s.rects[e.key := RectAt(s, e)], s.y, if e.picture.height > s.height then e.picture.height else s.height,
          s.x + e.picture.width)
  }

  function LayoutStep(s: Shelf, e: Entry, size: nat): Shelf {
    if TooBig(e, size) then s
    else
      var w := Wrapped(s, e, size);
      if w.y + e.picture.height > size then w else Advanced(w, e)
  }

  function Layout(entries: seq<Entry>, size: nat): Shelf {
    if entries == [] then Shelf(map[], 0, 0, 0)
    else LayoutStep(Layout(entries[..|entries| - 1], size), entries[|entries| - 1], size)
  }

  /** The rectangles are the entries' own, lie in the atlas and are pairwise disjoint. */
  lemma {:induction false} LayoutIsPlaced(entries: seq<Entry>, size: nat)
    requires DistinctKeys(entries)
    ensures Placed(entries, size, Layout(entries, size).rects) && OnShelves(Layout(entries, size))
  {
    hide Placed, DistinctKeys, OnShelves;
    if entries == [] {
      NothingPlaced(size);
    } else {
      var before, e := entries[..|entries| - 1], entries[|entries| - 1];
      assert entries == before + [e];
      DistinctPrefix(entries, |entries| - 1);
      LayoutIsPlaced(before, size);
      StepIsPlaced(before, size, Layout(before, size), e);
    }
  }

  lemma NothingPlaced(size: nat)
    ensures Placed([], size, map[]) && OnShelves(Shelf(map[], 0, 0, 0))
  {
  }

  lemma StepIsPlaced(entries: seq<Entry>, size: nat, s: Shelf, e: Entry)
    requires DistinctKeys(entries + [e]) && Placed(entries, size, s.rects) && OnShelves(s)
    ensures Placed(entries + [e], size, LayoutStep(s, e, size).rects) && OnShelves(LayoutStep(s, e, size))
  {
    hide Placed, DistinctKeys;
    PlacedSame(entries, size, s.rects, e);
    var w := Wrapped(s, e, size);
    if !TooBig(e, size) && w.y + e.picture.height <= size {
      var r := RectAt(w, e);
      forall k | k in w.rects ensures Disjoint(w.rects[k], r) {
      }
      PlacedMore(entries, size, w.rects, e, r);
    }
  }

  function TotalHeight(entries: seq<Entry>): nat {
    if entries == [] then 0 else TotalHeight(entries[..|entries| - 1]) + entries[|entries| - 1].picture.height
  }

  predicate AllNarrow(entries: seq<Entry>, size: nat) {
    forall i :: 0 <= i < |entries| ==> entries[i].picture.width <= size
  }

  /** Shelves never reach below the pictures stacked one over another. */
  lemma {:induction false} LayoutDepth(entries: seq<Entry>, size: nat)
    ensures Layout(entries, size).y + Layout(entries, size).height <= TotalHeight(entries)
  {
    if entries != [] {
      LayoutDepth(entries[..|entries| - 1], size);
    }
  }

  /** An atlas tall enough for one picture a shelf, and as wide as the widest, loses nothing. */
  lemma {:induction false} TallAtlasHoldsAll(entries: seq<Entry>, size: nat)
    requires DistinctKeys(entries) && AllNarrow(entries, size) && TotalHeight(entries) <= size
    ensures Unplaced(entries, Layout(entries, size).rects) == []
  {
    if entries != [] {
      var before, e := entries[..|entries| - 1], entries[|entries| - 1];
      assert entries == before + [e];
      DistinctPrefix(entries, |entries| - 1);
      assert AllNarrow(before, size) by {
        assert forall i :: 0 <= i < |before| ==> before[i] == entries[i];
      }
      TallAtlasHoldsAll(before, size);
      LayoutDepth(before, size);
      var w := Wrapped(Layout(before, size), e, size);
      UnplacedMore(before, w.rects, e, RectAt(w, e));
    }
  }

  // ----- the packer ----------------------------------------------------------------------------

  /**
   * `tryPack`: the placed pictures lie in the atlas without overlap and read back exactly, every
   * other texel is zero, and `overflow` lists, in order, the keys that were not placed.
   */
  method TryPack(sorted: seq<Entry>, size: nat)
    returns (data: array<Byte>, rects: map<string, Rect>, overflow: seq<string>)
    requires DistinctKeys(sorted) && AllWellFormed(sorted)
    ensures fresh(data) && data.Length == size * size * 2
    ensures rects == Layout(sorted, size).rects
    ensures Placed(sorted, size, rects) && Painted(sorted, size, rects, data[..])
    ensures overflow == Unplaced(sorted, rects)
  {
    hide Placed, Painted, DistinctKeys, AllWellFormed, WellFormed, Texel, Pixel, OnShelves, Unplaced;
    data := new Byte[size * size * 2](_ => 0);
    rects := map[];
    overflow := [];
    var shelfY: nat, shelfHeight: nat, cursorX: nat := 0, 0, 0;
    EmptyPacking(size, data[..]);
    for i := 0 to |sorted|
      invariant data.Length == size * size * 2 && fresh(data)
      invariant Shelf(rects, shelfY, shelfHeight, cursorX) == Layout(sorted[..i], size)
      invariant Packed(sorted[..i], size, rects, data[..], overflow)
    {
      var entry := sorted[i];
      var width, height := entry.picture.width, entry.picture.height;
      PrefixFacts(sorted, size, i);
      ghost var was := data[..];
      ghost var shelf := Layout(sorted[..i], size);
      if width > size || height > size {
        Skipped(sorted[..i], size, rects, data[..], overflow, entry);
        overflow := overflow + [entry.key];
        continue;
      }
      if cursorX + width > size {
        shelfY := shelfY + shelfHeight;
        shelfHeight := 0;
        cursorX := 0;
      }
      if shelfY + height > size {
        Skipped(sorted[..i], size, rects, data[..], overflow, entry);
        overflow := overflow + [entry.key];
        continue;
      }
      BlitInto(data, size, entry.picture, cursorX, shelfY);
      PackedMore(sorted[..i], size, shelf, was, overflow, entry, data[..]);
      var rect := Rect(cursorX, shelfY, width, height, entry.picture.leftOffset, entry.picture.topOffset);
      rects := rects[entry.key := rect];
      cursorX := cursorX + width;
      if height > shelfHeight { shelfHeight := height; }
    }
    assert sorted[..|sorted|] == sorted;
  }

  /** The loop invariant of `TryPack` that concerns the buffer and the overflow list. */
  ghost predicate Packed(entries: seq<Entry>, size: nat, rects: map<string, Rect>, data: seq<Byte>, overflow: seq<string>) {
    && AllWellFormed(entries) && Placed(entries, size, rects) && Painted(entries, size, rects, data)
    && overflow == Unplaced(entries, rects)
  }

  lemma EmptyPacking(size: nat, data: seq<Byte>)
    requires |data| == size * size * 2 && forall b :: 0 <= b < |data| ==> data[b] == 0
    ensures Packed([], size, map[], data, [])
  {
    NothingPlaced(size);
    hide Placed;
    forall u: nat, v: nat | u < size && v < size ensures Texel(data, size, u, v) == (0, 0) {
      IndexInRange(size, u, v);
    }
  }

  lemma DistinctPrefix(entries: seq<Entry>, n: nat)
    requires DistinctKeys(entries) && n <= |entries|
    ensures DistinctKeys(entries[..n])
  {
  }

  lemma PrefixFacts(sorted: seq<Entry>, size: nat, i: nat)
    requires DistinctKeys(sorted) && AllWellFormed(sorted) && i < |sorted|
    ensures sorted[..i + 1] == sorted[..i] + [sorted[i]]
    ensures DistinctKeys(sorted[..i] + [sorted[i]]) && WellFormed(sorted[i].picture)
    ensures Layout(sorted[..i + 1], size) == LayoutStep(Layout(sorted[..i], size), sorted[i], size)
    ensures OnShelves(Layout(sorted[..i], size))
  {
    DistinctPrefix(sorted, i);
    DistinctPrefix(sorted, i + 1);
    LayoutIsPlaced(sorted[..i], size);
    assert sorted[..i + 1][..i] == sorted[..i];
  }

  lemma Skipped(entries: seq<Entry>, size: nat, rects: map<string, Rect>, data: seq<Byte>, overflow: seq<string>, e: Entry)
    requires WellFormed(e.picture) && DistinctKeys(entries + [e])
    requires Packed(entries, size, rects, data, overflow)
    ensures Packed(entries + [e], size, rects, data, overflow + [e.key])
  {
    hide Placed, DistinctKeys, WellFormed, Texel, Pixel, ReadsBack;
    var all := entries + [e];
    PlacedSame(entries, size, rects, e);
    assert forall i :: 0 <= i < |all| ==> all[i] == if i < |entries| then entries[i] else e;
    assert all[..|all| - 1] == entries;
    forall i | 0 <= i < |all| && all[i].key in rects
      ensures Inside(rects[all[i].key], size) && RectOf(rects[all[i].key], all[i].picture)
      ensures ReadsBack(data, size, rects[all[i].key], all[i].picture)
    {
      PlacedEntry(all, size, rects, i);
      assert i < |entries|;
    }
  }

  lemma PackedMore(entries: seq<Entry>, size: nat, s: Shelf, data: seq<Byte>, overflow: seq<string>, e: Entry, after: seq<Byte>)
    requires WellFormed(e.picture) && DistinctKeys(entries + [e]) && OnShelves(s)
    requires Packed(entries, size, s.rects, data, overflow)
    requires !TooBig(e, size) && Wrapped(s, e, size).y + e.picture.height <= size
    requires |after| == size * size * 2
    requires var w := Wrapped(s, e, size);
             forall u: nat, v: nat :: u < size && v < size ==>
               Texel(after, size, u, v) ==
               if Covers(e.picture, w.x, w.y, u, v) then Pixel(e.picture, u - w.x, v - w.y) else Texel(data, size, u, v)
    ensures Packed(entries + [e], size, LayoutStep(s, e, size).rects, after, overflow)
  {
    PaintedLength(entries, size, s.rects, data);
    hide Texel, Pixel, Placed, Painted, DistinctKeys, WellFormed, Unplaced;
    var w := Wrapped(s, e, size);
    var r := RectAt(w, e);
    KeyIsNew(entries, size, s.rects, e);
    ShelfIsDisjoint(w, r);
    PlacedMore(entries, size, s.rects, e, r);
    PaintedMore(entries, size, s.rects, data, e, r, after);
    UnplacedMore(entries, s.rects, e, r);
  }

  lemma PaintedLength(entries: seq<Entry>, size: nat, rects: map<string, Rect>, data: seq<Byte>)
    requires AllWellFormed(entries) && Placed(entries, size, rects) && Painted(entries, size, rects, data)
    ensures |data| == size * size * 2
  {
  }

  lemma UnplacedMore(entries: seq<Entry>, rects: map<string, Rect>, e: Entry, r: Rect)
    requires DistinctKeys(entries + [e])
    ensures Unplaced(entries + [e], rects[e.key := r]) == Unplaced(entries, rects)
  {
    assert (entries + [e])[..|entries|] == entries;
    forall i | 0 <= i < |entries| ensures entries[i].key in rects <==> entries[i].key in rects[e.key := r] {
      KeysDiffer(entries, e, i);
    }
    UnplacedSame(entries, rects, rects[e.key := r]);
  }

  // ----- sorting and growing -------------------------------------------------------------------

  /** Tallest first, ties in their original order. */
  function Inserted(e: Entry, sorted: seq<Entry>): seq<Entry> {
    if sorted == [] || e.picture.height >= sorted[0].picture.height then [e] + sorted
    else [sorted[0]] + Inserted(e, sorted[1..])
  }

  /** `[...entries].sort((a, b) => b.height - a.height)`, a stable sort. */
  function ByHeight(entries: seq<Entry>): seq<Entry> {
    if entries == [] then [] else Inserted(entries[0], ByHeight(entries[1..]))
  }

  predicate TallestFirst(entries: seq<Entry>) {
    forall i, j :: 0 <= i < j < |entries| ==> entries[i].picture.height >= entries[j].picture.height
  }

  lemma {:induction false} InsertedIs(e: Entry, sorted: seq<Entry>)
    ensures multiset(Inserted(e, sorted)) == multiset(sorted) + multiset{e}
  {
    if sorted != [] && e.picture.height < sorted[0].picture.height {
      InsertedIs(e, sorted[1..]);
      assert sorted == [sorted[0]] + sorted[1..];
    }
  }

  lemma InsertedMembers(e: Entry, sorted: seq<Entry>)
    ensures forall x :: x in Inserted(e, sorted) <==> x == e || x in sorted
  {
    InsertedIs(e, sorted);
    forall x ensures x in Inserted(e, sorted) <==> x == e || x in sorted {
      assert x in Inserted(e, sorted) <==> x in multiset(Inserted(e, sorted));
    }
  }

  lemma {:induction false} InsertedSorted(e: Entry, sorted: seq<Entry>)
    requires TallestFirst(sorted)
    ensures TallestFirst(Inserted(e, sorted))
  {
    if sorted != [] && e.picture.height < sorted[0].picture.height {
      var rest := Inserted(e, sorted[1..]);
      InsertedSorted(e, sorted[1..]);
      InsertedMembers(e, sorted[1..]);
      hide Inserted;
      forall j | 0 <= j < |rest| ensures sorted[0].picture.height >= rest[j].picture.height {
        assert rest[j] in rest;
      }
      assert Inserted(e, sorted) == [sorted[0]] + rest by {
        InsertedBehind(e, sorted);
      }
    }
  }

  lemma InsertedBehind(e: Entry, sorted: seq<Entry>)
    requires sorted != [] && e.picture.height < sorted[0].picture.height
    ensures Inserted(e, sorted) == [sorted[0]] + Inserted(e, sorted[1..])
  {
  }

  lemma {:induction false} ByHeightIs(entries: seq<Entry>)
    ensures multiset(ByHeight(entries)) == multiset(entries) && TallestFirst(ByHeight(entries))
  {
    if entries != [] {
      ByHeightIs(entries[1..]);
      InsertedIs(entries[0], ByHeight(entries[1..]));
      InsertedSorted(entries[0], ByHeight(entries[1..]));
      hide Inserted, TallestFirst;
      assert entries == [entries[0]] + entries[1..];
    }
  }

  /** The entries of one height, in order. */
  function OfHeight(entries: seq<Entry>, h: nat): seq<Entry> {
    if entries == [] then []
    else (if entries[0].picture.height == h then [entries[0]] else []) + OfHeight(entries[1..], h)
  }

  lemma {:induction false} InsertedStable(e: Entry, sorted: seq<Entry>, h: nat)
    ensures OfHeight(Inserted(e, sorted), h) == OfHeight([e] + sorted, h)
  {
    assert ([e] + sorted)[1..] == sorted;
    if sorted != [] && e.picture.height < sorted[0].picture.height {
      InsertedStable(e, sorted[1..], h);
      assert ([e] + sorted[1..])[1..] == sorted[1..];
      assert Inserted(e, sorted)[1..] == Inserted(e, sorted[1..]);
    }
  }

  /** The sort is stable: pictures of equal height keep their order. */
  lemma {:induction false} ByHeightStable(entries: seq<Entry>, h: nat)
    ensures OfHeight(ByHeight(entries), h) == OfHeight(entries, h)
  {
    if entries != [] {
      var rest := ByHeight(entries[1..]);
      ByHeightStable(entries[1..], h);
      InsertedStable(entries[0], rest, h);
      assert ([entries[0]] + rest)[1..] == rest;
    }
  }

  function PixelsNeeded(entries: seq<Entry>): nat {
    if entries == [] then 0
    else entries[0].picture.width * entries[0].picture.height + PixelsNeeded(entries[1..])
  }

  // ----- growing until everything fits ---------------------------------------------------------

  function Pow2(n: nat): nat {
    if n == 0 then 1 else 2 * Pow2(n - 1)
  }

  /** `size` is `minSize` doubled some number of times. */
  ghost predicate Doubled(minSize: nat, size: nat) {
    exists k: nat :: size == minSize * Pow2(k)
  }

  lemma DoubledMore(minSize: nat, size: nat)
    requires Doubled(minSize, size)
    ensures Doubled(minSize, 2 * size)
  {
    var k: nat :| size == minSize * Pow2(k);
    assert Pow2(k + 1) == 2 * Pow2(k);
    assert minSize * (2 * Pow2(k)) == 2 * (minSize * Pow2(k));
  }

  ghost predicate SameEntries(a: seq<Entry>, b: seq<Entry>) {
    forall x :: x in a <==> x in b
  }

  lemma PermutedIsSame(a: seq<Entry>, b: seq<Entry>)
    requires multiset(a) == multiset(b)
    ensures SameEntries(a, b)
  {
    forall x ensures x in a <==> x in b {
      assert x in multiset(a) <==> x in multiset(b);
    }
  }

  lemma ConsDistinct(e: Entry, rest: seq<Entry>)
    ensures DistinctKeys([e] + rest) <==> DistinctKeys(rest) && forall x :: x in rest ==> x.key != e.key
  {
    var all := [e] + rest;
    assert all[0] == e && forall i :: 0 <= i < |rest| ==> all[i + 1] == rest[i];
    if DistinctKeys(all) {
      forall i, j | 0 <= i < j < |rest| ensures rest[i].key != rest[j].key {
        assert all[i + 1].key != all[j + 1].key;
      }
    }
    if DistinctKeys(rest) && forall x :: x in rest ==> x.key != e.key {
      forall i, j | 0 <= i < j < |all| ensures all[i].key != all[j].key {
        if i > 0 {
          assert rest[i - 1].key != rest[j - 1].key;
        }
      }
    }
  }

  lemma {:induction false} InsertedKeeps(e: Entry, sorted: seq<Entry>)
    requires DistinctKeys([e] + sorted)
    ensures DistinctKeys(Inserted(e, sorted))
  {
    hide DistinctKeys;
    if sorted != [] && e.picture.height < sorted[0].picture.height {
      assert sorted == [sorted[0]] + sorted[1..];
      ConsDistinct(e, sorted);
      ConsDistinct(sorted[0], sorted[1..]);
      ConsDistinct(e, sorted[1..]);
      InsertedKeeps(e, sorted[1..]);
      InsertedMembers(e, sorted[1..]);
      ConsDistinct(sorted[0], Inserted(e, sorted[1..]));
    }
  }

  /** Sorting keeps the keys distinct. */
  lemma {:induction false} ByHeightKeeps(entries: seq<Entry>)
    requires DistinctKeys(entries)
    ensures DistinctKeys(ByHeight(entries))
  {
    hide DistinctKeys;
    if entries == [] {
    } else {
      var e, rest := entries[0], ByHeight(entries[1..]);
      assert entries == [e] + entries[1..];
      ConsDistinct(e, entries[1..]);
      ByHeightKeeps(entries[1..]);
      ByHeightIs(entries[1..]);
      assert forall x :: x in rest ==> x in multiset(rest);
      ConsDistinct(e, rest);
      InsertedKeeps(e, rest);
    }
  }

  lemma SamePlacing(a: seq<Entry>, b: seq<Entry>, size: nat, rects: map<string, Rect>)
    requires SameEntries(a, b) && Placed(a, size, rects)
    ensures Placed(b, size, rects)
  {
    hide Inside, Disjoint, RectOf, Apart, KeyOf;
    forall k | k in rects ensures KeyOf(b, k) {
      SameKeys(a, b, k);
    }
    forall i | 0 <= i < |b| && b[i].key in rects ensures RectOf(rects[b[i].key], b[i].picture) {
      assert b[i] in a;
    }
  }

  lemma SameKeys(a: seq<Entry>, b: seq<Entry>, k: string)
    requires SameEntries(a, b)
    ensures KeyOf(a, k) <==> KeyOf(b, k)
  {
    if KeyOf(a, k) {
      var i :| 0 <= i < |a| && a[i].key == k;
      assert a[i] in b;
    }
    if KeyOf(b, k) {
      var i :| 0 <= i < |b| && b[i].key == k;
      assert b[i] in a;
    }
  }

  lemma SamePainting(a: seq<Entry>, b: seq<Entry>, size: nat, rects: map<string, Rect>, data: seq<Byte>)
    requires SameEntries(a, b) && AllWellFormed(a) && AllWellFormed(b)
    requires Placed(a, size, rects) && Placed(b, size, rects) && Painted(a, size, rects, data)
    ensures Painted(b, size, rects, data)
  {
    hide WellFormed, Texel, Pixel, ReadsBack;
    hide Inside, Disjoint, RectOf;
    forall i | 0 <= i < |b| && b[i].key in rects
      ensures Inside(rects[b[i].key], size) && RectOf(rects[b[i].key], b[i].picture)
      ensures ReadsBack(data, size, rects[b[i].key], b[i].picture)
    {
      assert b[i] in a;
      var j :| 0 <= j < |a| && a[j] == b[i];
      PlacedEntry(a, size, rects, j);
    }
  }

  lemma {:induction false} TotalHeightCons(e: Entry, rest: seq<Entry>)
    ensures TotalHeight([e] + rest) == e.picture.height + TotalHeight(rest)
  {
    var all := [e] + rest;
    if rest == [] {
      assert all[..0] == [];
    } else {
      assert all[..|all| - 1] == [e] + rest[..|rest| - 1];
      TotalHeightCons(e, rest[..|rest| - 1]);
    }
  }

  lemma {:induction false} TotalHeightInserted(e: Entry, sorted: seq<Entry>)
    ensures TotalHeight(Inserted(e, sorted)) == e.picture.height + TotalHeight(sorted)
  {
    TotalHeightCons(e, sorted);
    if sorted != [] && e.picture.height < sorted[0].picture.height {
      assert sorted == [sorted[0]] + sorted[1..];
      TotalHeightInserted(e, sorted[1..]);
      TotalHeightCons(sorted[0], sorted[1..]);
      TotalHeightCons(sorted[0], Inserted(e, sorted[1..]));
    }
  }

  lemma {:induction false} TotalHeightSorted(entries: seq<Entry>)
    ensures TotalHeight(ByHeight(entries)) == TotalHeight(entries)
  {
    if entries != [] {
      assert entries == [entries[0]] + entries[1..];
      TotalHeightSorted(entries[1..]);
      TotalHeightCons(entries[0], entries[1..]);
      TotalHeightInserted(entries[0], ByHeight(entries[1..]));
    }
  }

  /** The stated outcome of `packAtlas` at one size. */
  ghost predicate Atlas(entries: seq<Entry>, size: nat, data: seq<Byte>, rects: map<string, Rect>, overflow: seq<string>) {
    && AllWellFormed(entries) && Placed(entries, size, rects) && Painted(entries, size, rects, data)
    && (forall k :: KeyOf(entries, k) <==> (k in rects || k in overflow))
    && (forall k :: !(k in rects && k in overflow))
  }

  lemma AtlasOfSorted(entries: seq<Entry>, size: nat, data: seq<Byte>, rects: map<string, Rect>)
    requires AllWellFormed(entries) && AllWellFormed(ByHeight(entries))
    requires Placed(ByHeight(entries), size, rects) && Painted(ByHeight(entries), size, rects, data)
    ensures Atlas(entries, size, data, rects, Unplaced(ByHeight(entries), rects))
  {
    var sorted := ByHeight(entries);
    ByHeightIs(entries);
    PermutedIsSame(sorted, entries);
    SamePlacing(sorted, entries, size, rects);
    SamePainting(sorted, entries, size, rects, data);
    UnplacedKeys(sorted, rects);
    hide Placed, Painted, AllWellFormed, Unplaced, ByHeight, KeyOf, SameEntries;
    var overflow := Unplaced(sorted, rects);
    forall k ensures KeyOf(entries, k) <==> KeyOf(sorted, k) {
      SameKeys(entries, sorted, k);
    }
  }

  /** With room for one picture a shelf, nothing overflows. */
  lemma NothingLost(entries: seq<Entry>, size: nat)
    requires DistinctKeys(entries) && AllNarrow(entries, size) && TotalHeight(entries) <= size
    ensures Unplaced(ByHeight(entries), Layout(ByHeight(entries), size).rects) == []
  {
    ByHeightKeeps(entries);
    ByHeightIs(entries);
    PermutedIsSame(ByHeight(entries), entries);
    TotalHeightSorted(entries);
    assert forall i :: 0 <= i < |ByHeight(entries)| ==> ByHeight(entries)[i] in entries;
    TallAtlasHoldsAll(ByHeight(entries), size);
  }

  // ----- how much a square can hold ------------------------------------------------------------

  lemma {:induction false} PixelsSnoc(entries: seq<Entry>, e: Entry)
    ensures PixelsNeeded(entries + [e]) == PixelsNeeded(entries) + e.picture.width * e.picture.height
  {
    if entries == [] {
      assert [e][1..] == [] && [] + [e] == [e];
    } else {
      assert (entries + [e])[1..] == entries[1..] + [e];
      PixelsSnoc(entries[1..], e);
    }
  }

  /** The shelves stay in the square. */
  lemma {:induction false} ShelvesFit(entries: seq<Entry>, size: nat)
    ensures Layout(entries, size).x <= size && Layout(entries, size).y + Layout(entries, size).height <= size
  {
    if entries != [] {
      ShelvesFit(entries[..|entries| - 1], size);
    }
  }

  /** Area in the shelves above and on the current one. */
  function ShelfArea(s: Shelf, size: nat): nat {
    size * s.y + s.x * s.height
  }

  lemma WrapArea(s: Shelf, e: Entry, size: nat)
    requires s.x <= size
    ensures ShelfArea(s, size) <= ShelfArea(Wrapped(s, e, size), size)
  {
    if s.x + e.picture.width > size {
      assert s.x * s.height <= size * s.height;
      assert size * (s.y + s.height) == size * s.y + size * s.height;
    }
  }

  lemma AdvanceArea(s: Shelf, e: Entry, size: nat)
    ensures ShelfArea(s, size) + e.picture.width * e.picture.height <= ShelfArea(Advanced(s, e), size)
  {
    var h := if e.picture.height > s.height then e.picture.height else s.height;
    assert s.x * s.height <= s.x * h;
    assert e.picture.width * e.picture.height <= e.picture.width * h;
    assert (s.x + e.picture.width) * h == s.x * h + e.picture.width * h;
  }

  /** The last picture of a layout that loses nothing was placed, and so were those before it. */
  lemma LastPlaced(entries: seq<Entry>, size: nat)
    requires entries != [] && DistinctKeys(entries) && Unplaced(entries, Layout(entries, size).rects) == []
    ensures var before, e := entries[..|entries| - 1], entries[|entries| - 1];
            && DistinctKeys(before) && Unplaced(before, Layout(before, size).rects) == []
            && Layout(entries, size) == Advanced(Wrapped(Layout(before, size), e, size), e)
  {
    var before, e := entries[..|entries| - 1], entries[|entries| - 1];
    var b, all := Layout(before, size), Layout(entries, size);
    DistinctPrefix(entries, |entries| - 1);
    LayoutIsPlaced(before, size);
    assert entries == before + [e];
    KeyIsNew(before, size, b.rects, e);
    assert Unplaced(before, all.rects) == [];
    forall i | 0 <= i < |before| ensures before[i].key in b.rects <==> before[i].key in all.rects {
      KeysDiffer(before, e, i);
    }
    UnplacedSame(before, b.rects, all.rects);
  }

  /** Pictures placed without loss cover no more than the shelves do. */
  lemma {:induction false} LayoutArea(entries: seq<Entry>, size: nat)
    requires DistinctKeys(entries) && Unplaced(entries, Layout(entries, size).rects) == []
    ensures PixelsNeeded(entries) <= ShelfArea(Layout(entries, size), size)
  {
    if entries != [] {
      hide DistinctKeys, Unplaced, ShelfArea;
      var before, e := entries[..|entries| - 1], entries[|entries| - 1];
      LastPlaced(entries, size);
      LayoutArea(before, size);
      ShelvesFit(before, size);
      WrapArea(Layout(before, size), e, size);
      AdvanceArea(Wrapped(Layout(before, size), e, size), e, size);
      assert entries == before + [e];
      PixelsSnoc(before, e);
    }
  }

  /** A square that holds every picture is at least as large as all of them together. */
  lemma HoldsOnlyItsArea(entries: seq<Entry>, size: nat)
    requires DistinctKeys(entries) && Unplaced(entries, Layout(entries, size).rects) == []
    ensures PixelsNeeded(entries) <= size * size
  {
    hide Layout, PixelsNeeded, Unplaced, DistinctKeys;
    LayoutArea(entries, size);
    ShelvesFit(entries, size);
    WithinSquare(Layout(entries, size), size);
  }

  lemma WithinSquare(s: Shelf, size: nat)
    requires s.x <= size && s.y + s.height <= size
    ensures ShelfArea(s, size) <= size * size
  {
    ScaledGrows(s.height, s.x, size);
    ScaledGrows(size, s.y + s.height, size);
    assert size * (s.y + s.height) == size * s.y + size * s.height;
  }

  /** Below the limit, and something does not fit. */
  predicate TooSmall(sorted: seq<Entry>, size: nat, maxSize: nat) {
    size < maxSize && Unplaced(sorted, Layout(sorted, size).rects) != []
  }

  /** No smaller doubling of the minimum would have done. */
  ghost predicate Least(sorted: seq<Entry>, minSize: nat, size: nat, maxSize: nat) {
    forall k: nat :: minSize * Pow2(k) < size ==> TooSmall(sorted, minSize * Pow2(k), maxSize)
  }

  lemma {:induction false} Pow2Grows(j: nat, k: nat)
    requires j <= k
    ensures 1 <= Pow2(j) <= Pow2(k)
  {
    if j < k {
      Pow2Grows(j, k - 1);
    } else if j > 0 {
      Pow2Grows(j - 1, j - 1);
    }
  }

  lemma ScaledGrows(m: nat, a: nat, b: nat)
    requires a <= b
    ensures m * a <= m * b
  {
  }

  lemma LeastAtFirst(sorted: seq<Entry>, minSize: nat, maxSize: nat)
    ensures Least(sorted, minSize, minSize, maxSize)
  {
    forall k: nat ensures minSize * Pow2(k) >= minSize {
      Pow2Grows(0, k);
      ScaledGrows(minSize, 1, Pow2(k));
    }
  }

  lemma LeastMore(sorted: seq<Entry>, minSize: nat, size: nat, maxSize: nat)
    requires Doubled(minSize, size) && Least(sorted, minSize, size, maxSize) && TooSmall(sorted, size, maxSize)
    ensures Least(sorted, minSize, 2 * size, maxSize)
  {
    hide TooSmall;
    var j: nat :| size == minSize * Pow2(j);
    assert minSize * Pow2(j + 1) == minSize * (2 * Pow2(j)) == 2 * size;
    forall k: nat | minSize * Pow2(k) < 2 * size ensures TooSmall(sorted, minSize * Pow2(k), maxSize) {
      if k <= j {
        Pow2Grows(k, j);
        ScaledGrows(minSize, Pow2(k), Pow2(j));
      } else {
        Pow2Grows(j + 1, k);
        ScaledGrows(minSize, Pow2(j + 1), Pow2(k));
      }
    }
  }

  // ----- the order of the overflow -------------------------------------------------------------

  /** The entries that were not placed, in the order given. */
  function Left(entries: seq<Entry>, rects: map<string, Rect>): seq<Entry> {
    if entries == [] then []
    else if entries[0].key in rects then Left(entries[1..], rects)
    else [entries[0]] + Left(entries[1..], rects)
  }

  function Keys(entries: seq<Entry>): seq<string> {
    seq(|entries|, i requires 0 <= i < |entries| => entries[i].key)
  }

  lemma {:induction false} LeftSnoc(entries: seq<Entry>, e: Entry, rects: map<string, Rect>)
    ensures Left(entries + [e], rects) == Left(entries, rects) + if e.key in rects then [] else [e]
  {
    if entries == [] {
      assert [e][1..] == [] && [] + [e] == [e];
    } else {
      assert (entries + [e])[1..] == entries[1..] + [e];
      LeftSnoc(entries[1..], e, rects);
    }
  }

  lemma {:induction false} UnplacedIsLeft(entries: seq<Entry>, rects: map<string, Rect>)
    ensures Unplaced(entries, rects) == Keys(Left(entries, rects))
  {
    if entries != [] {
      var n: nat := |entries| - 1;
      UnplacedIsLeft(entries[..n], rects);
      assert entries == entries[..n] + [entries[n]];
      LeftSnoc(entries[..n], entries[n], rects);
    }
  }

  lemma {:induction false} LeftMembers(entries: seq<Entry>, rects: map<string, Rect>)
    ensures forall x :: x in Left(entries, rects) <==> x in entries && x.key !in rects
  {
    if entries != [] {
      LeftMembers(entries[1..], rects);
      assert entries == [entries[0]] + entries[1..];
    }
  }

  /** Filtering and sorting commute. */
  lemma {:induction false} LeftInserted(e: Entry, sorted: seq<Entry>, rects: map<string, Rect>)
    requires TallestFirst(sorted)
    ensures Left(Inserted(e, sorted), rects) ==
            if e.key in rects then Left(sorted, rects) else Inserted(e, Left(sorted, rects))
  {
    if sorted == [] || e.picture.height >= sorted[0].picture.height {
      assert ([e] + sorted)[1..] == sorted;
      LeftMembers(sorted, rects);
      var left := Left(sorted, rects);
      if left != [] {
        assert left[0] in sorted;
      }
    } else {
      var rest := sorted[1..];
      LeftInserted(e, rest, rects);
      assert ([sorted[0]] + Inserted(e, rest))[1..] == Inserted(e, rest);
      if sorted[0].key !in rects {
        assert ([sorted[0]] + Left(rest, rects))[1..] == Left(rest, rects);
      }
    }
  }

  lemma {:induction false} LeftSorted(entries: seq<Entry>, rects: map<string, Rect>)
    ensures Left(ByHeight(entries), rects) == ByHeight(Left(entries, rects))
  {
    if entries != [] {
      LeftSorted(entries[1..], rects);
      ByHeightIs(entries[1..]);
      LeftInserted(entries[0], ByHeight(entries[1..]), rects);
      if entries[0].key !in rects {
        assert ([entries[0]] + Left(entries[1..], rects))[1..] == Left(entries[1..], rects);
      }
    }
  }

  /** Sorting leaves a list alone exactly when it is sorted. */
  lemma {:induction false} SortedIsFixed(entries: seq<Entry>)
    requires TallestFirst(entries)
    ensures ByHeight(entries) == entries
  {
    if entries != [] {
      SortedIsFixed(entries[1..]);
      assert entries == [entries[0]] + entries[1..];
    }
  }

  lemma SameKeysSame(all: seq<Entry>, a: seq<Entry>, b: seq<Entry>)
    requires DistinctKeys(all) && (forall x :: x in a ==> x in all) && (forall x :: x in b ==> x in all)
    requires Keys(a) == Keys(b)
    ensures a == b
  {
    assert |a| == |Keys(a)| && |b| == |Keys(b)|;
    forall i | 0 <= i < |a| ensures a[i] == b[i] {
      assert Keys(a)[i] == Keys(b)[i];
      assert a[i] in all && b[i] in all;
    }
  }

  /**
   * `overflow` is declared to be in insertion order. It is in height order: the two agree exactly
   * when the entries left over, as they were inserted, already come tallest first.
   */
  lemma OverflowOrderExactly(entries: seq<Entry>, rects: map<string, Rect>)
    requires DistinctKeys(entries)
    ensures Unplaced(ByHeight(entries), rects) == Unplaced(entries, rects) <==> TallestFirst(Left(entries, rects))
  {
    var left := Left(entries, rects);
    UnplacedIsLeft(entries, rects);
    UnplacedIsLeft(ByHeight(entries), rects);
    LeftSorted(entries, rects);
    ByHeightIs(left);
    PermutedIsSame(ByHeight(left), left);
    LeftMembers(entries, rects);
    if Keys(ByHeight(left)) == Keys(left) {
      SameKeysSame(entries, ByHeight(left), left);
    }
    if TallestFirst(left) {
      SortedIsFixed(left);
    }
  }

  /**
   * `packAtlas`: sort, guess a size, then double until nothing overflows or the limit is reached.
   * Every key is in exactly one of `rects` and `overflow`.
   */
  method PackAtlas(entries: seq<Entry>, maxSize: nat, minSize: nat)
    returns (size: nat, data: array<Byte>, rects: map<string, Rect>, overflow: seq<string>)
    requires DistinctKeys(entries) && AllWellFormed(entries) && minSize >= 1
    ensures data.Length == size * size * 2
    ensures rects == Layout(ByHeight(entries), size).rects
    ensures overflow == Unplaced(ByHeight(entries), rects)
    ensures Atlas(entries, size, data[..], rects, overflow)
    ensures Doubled(minSize, size) && (overflow == [] || size >= maxSize)
    ensures Least(ByHeight(entries), minSize, size, maxSize)
    ensures AllNarrow(entries, maxSize) && TotalHeight(entries) <= maxSize ==> overflow == []
    ensures overflow == Unplaced(entries, rects) <==> TallestFirst(Left(entries, rects))
  {
    hide Placed, Painted, WellFormed, Unplaced, ByHeight, Layout, Atlas, Doubled, AllNarrow, TotalHeight, TallestFirst, Left, Least;
    var sorted := ByHeight(entries);
    SortedFacts(entries);
    var needed := PixelsNeeded(sorted);
    size := minSize;
    DoubledOnce(minSize);
    LeastAtFirst(sorted, minSize, maxSize);
    while size * size < needed && size < maxSize
      invariant size >= 1 && Doubled(minSize, size) && Least(sorted, minSize, size, maxSize)
      decreases maxSize - size
    {
      SkippedTooSmall(sorted, size, maxSize);
      LeastMore(sorted, minSize, size, maxSize);
      DoubledMore(minSize, size);
      size := size * 2;
    }
    while true
      invariant size >= 1 && Doubled(minSize, size) && Least(sorted, minSize, size, maxSize)
      decreases maxSize - size
    {
      data, rects, overflow := TryPack(sorted, size);
      if |overflow| == 0 || size >= maxSize {
        AtlasOfSorted(entries, size, data[..], rects);
        OverflowOrderExactly(entries, rects);
        if AllNarrow(entries, maxSize) && TotalHeight(entries) <= maxSize && size >= maxSize {
          NothingLostAbove(entries, maxSize, size);
        }
        return;
      }
      LeastMore(sorted, minSize, size, maxSize);
      DoubledMore(minSize, size);
      size := size * 2;
    }
  }

  /** A size skipped because the pixels alone are too many would have lost a picture. */
  lemma SkippedTooSmall(sorted: seq<Entry>, size: nat, maxSize: nat)
    requires DistinctKeys(sorted) && size * size < PixelsNeeded(sorted) && size < maxSize
    ensures TooSmall(sorted, size, maxSize)
  {
    hide Unplaced, Layout, DistinctKeys;
    if Unplaced(sorted, Layout(sorted, size).rects) == [] {
      HoldsOnlyItsArea(sorted, size);
    }
  }

  lemma NothingLostAbove(entries: seq<Entry>, limit: nat, size: nat)
    requires DistinctKeys(entries) && AllNarrow(entries, limit) && TotalHeight(entries) <= limit <= size
    ensures Unplaced(ByHeight(entries), Layout(ByHeight(entries), size).rects) == []
  {
    NothingLost(entries, size);
  }

  lemma DoubledOnce(minSize: nat)
    ensures Doubled(minSize, minSize)
  {
    assert minSize == minSize * Pow2(0);
  }

  lemma SortedFacts(entries: seq<Entry>)
    requires DistinctKeys(entries) && AllWellFormed(entries)
    ensures DistinctKeys(ByHeight(entries)) && AllWellFormed(ByHeight(entries))
  {
    ByHeightKeeps(entries);
    ByHeightIs(entries);
    PermutedIsSame(ByHeight(entries), entries);
    assert forall i :: 0 <= i < |ByHeight(entries)| ==> ByHeight(entries)[i] in entries;
  }

  /** The whole buffer: a byte belongs to a placed picture or is zero. */
  lemma OtherBytesAreZero(entries: seq<Entry>, size: nat, data: seq<Byte>, rects: map<string, Rect>, b: nat)
    requires AllWellFormed(entries) && Placed(entries, size, rects) && Painted(entries, size, rects, data)
    requires b < |data| && data[b] != 0
    ensures exists k, x: nat, y: nat :: k in rects && Under(rects[k], x, y)
              && (b == Index(size, x, y) || b == Index(size, x, y) + 1)
  {
    EveryByteIsTexel(size, b);
    var x: nat, y: nat :| x < size && y < size && (b == Index(size, x, y) || b == Index(size, x, y) + 1);
    IndexInRange(size, x, y);
    assert Texel(data, size, x, y) != (0, 0);
    assert !Uncovered(rects, x, y);
    var k :| k in rects && Under(rects[k], x, y);
  }

  /** `overflow` is in height order, although its declaration promises insertion order. */
  lemma OverflowIsNotInsertionOrder()
    ensures var a, b := Entry("a", Picture(2, 1, 0, 0, [0, 0], [0, 0])), Entry("b", Picture(2, 2, 0, 0, [0, 0, 0, 0], [0, 0, 0, 0]));
            var sorted := ByHeight([a, b]);
            Unplaced(sorted, Layout(sorted, 1).rects) == ["b", "a"]
  {
    var a, b := Entry("a", Picture(2, 1, 0, 0, [0, 0], [0, 0])), Entry("b", Picture(2, 2, 0, 0, [0, 0, 0, 0], [0, 0, 0, 0]));
    assert ByHeight([a, b][1..]) == [b] by {
      assert [a, b][1..] == [b] && [b][1..] == [];
    }
    var sorted := ByHeight([a, b]);
    assert sorted == [b, a] by {
      assert [b][1..] == [] && Inserted(a, []) == [a];
    }
    assert sorted[..1] == [b] && [b][..0] == [];
    assert Layout([b], 1).rects == map[] && Layout(sorted, 1).rects == map[];
    assert Unplaced([b], map[]) == ["b"];
  }
}
