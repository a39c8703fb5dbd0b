/**
 * The curved journey gallery: an infinite horizontal strip of image tiles.
 *
 * The item list is doubled into tiles laid out a fixed distance apart. Each
 * animation frame eases the scroll position toward the scroll target, places
 * every tile relative to the scroll position, and moves a tile that has left
 * the viewport on the trailing side by the length of the whole strip, so that
 * it comes back on the leading side. Drag and wheel input move the target;
 * snapping rounds the target to a whole tile and reports the tile count
 * modulo the item count, which is the centred item only for a target of zero
 * or more (`CentreIndex` is the centred item for every target).
 *
 * Positions are exact reals. `Math.sqrt` and `Math.asin`, used only for a bent
 * strip, are supplied by the caller as a `Trig` value.
 */
module Gallery {
  import opened Wrappers
  import opened JsMath
  import opened Easing

  /** One entry of the caller's list: image URL, caption and optional alt text. */
  datatype GalleryItem = GalleryItem(image: string, text: string, alt: Option<string>)

  /** Scroll direction of one frame. */
  datatype Direction = Left | Right

  /** A width and a height, for the screen (pixels) and for the viewport (scene units). */
  datatype Size = Size(width: real, height: real)

  /** The two transcendental functions a bent strip needs. */
  datatype Trig = Trig(sqrt: real -> real, asin: real -> real)

  /** Gap between neighbouring tiles, in scene units. */
  const Padding: real := 2.0

  /** Sizes that the layout arithmetic can divide by. */
  predicate Measurable(screen: Size, viewport: Size)
  {
    screen.width > 0.0 && screen.height > 0.0 && viewport.width >= 0.0 && viewport.height >= 0.0
  }

  // ---------------------------------------------------------------------------
  // Tile list and layout

  /** The tile list: the items followed by themselves, for a seamless wraparound. */
  function Duplicate(items: seq<GalleryItem>): (tiles: seq<GalleryItem>)
    ensures |tiles| == 2 * |items|
    ensures forall i :: 0 <= i < |tiles| ==> tiles[i] == items[i % |items|]
  {
    var tiles := items + items;
    forall i | 0 <= i < |tiles|
      ensures tiles[i] == items[i % |items|]
    {
      if i >= |items| {
        ModShift(i - |items|, |items|);
      }
    }
    tiles
  }

  /** An index in the second copy maps to the same item as its twin in the first. */
  lemma ModShift(i: nat, n: nat)
    requires i < n
    ensures (i + n) % n == i && i % n == i
  {
  }

  /** Size and position of one tile, as fixed by the last resize. */
  datatype Layout = Layout(scaleX: real, scaleY: real, width: real, widthTotal: real, x: real)

  /** `Media.onResize`: tile size from the screen and viewport; spacing from the tile's index. */
  function TileLayout(screen: Size, viewport: Size, index: nat, length: nat): Layout
    requires Measurable(screen, viewport)
  {
    var scale := screen.height / 1500.0;
    var sy := viewport.height * (900.0 * scale) / screen.height;
    var sx := viewport.width * (700.0 * scale) / screen.width;
    var w := sx + Padding;
    Layout(sx, sy, w, w * length as real, w * index as real)
  }

  /** The tile is 60% of the viewport high and keeps the 7:15 proportion of the
      700 x 1500 design frame, corrected for the screen's aspect ratio. */
  lemma TileScales(screen: Size, viewport: Size, index: nat, length: nat)
    requires Measurable(screen, viewport)
    ensures TileLayout(screen, viewport, index, length).scaleY == 0.6 * viewport.height
    ensures 15.0 * TileLayout(screen, viewport, index, length).scaleX * screen.width
            == 7.0 * viewport.width * screen.height
    ensures TileLayout(screen, viewport, index, length).width >= Padding
  {
    var scale := screen.height / 1500.0;
    var sy := viewport.height * (900.0 * scale) / screen.height;
    var sx := viewport.width * (700.0 * scale) / screen.width;
    LayoutScales(screen, viewport, scale, sx, sy);
  }

  lemma LayoutScales(screen: Size, viewport: Size, scale: real, sx: real, sy: real)
    requires Measurable(screen, viewport)
    requires scale == screen.height / 1500.0
    requires sy == viewport.height * (900.0 * scale) / screen.height
    requires sx == viewport.width * (700.0 * scale) / screen.width
    ensures sy == 0.6 * viewport.height
    ensures 15.0 * sx * screen.width == 7.0 * viewport.width * screen.height
    ensures sx >= 0.0
  {
    assert 900.0 * scale == 0.6 * screen.height;
    assert sy * screen.height == viewport.height * (0.6 * screen.height);
    Cancel(sy, 0.6 * viewport.height, screen.height);
    assert sx * screen.width == viewport.width * (700.0 * scale);
    MulNonNeg(viewport.width, 700.0 * scale);
    var num := viewport.width * (700.0 * scale);
    assert num >= 0.0;
    assert sx == num / screen.width;
  }

  /** Tiles laid out for the same sizes are exactly one tile width apart, and the
      strip length is the distance from the first tile to one past the last. */
  lemma LayoutSpacing(screen: Size, viewport: Size, i: nat, length: nat)
    requires Measurable(screen, viewport)
    ensures TileLayout(screen, viewport, i + 1, length).x - TileLayout(screen, viewport, i, length).x
            == TileLayout(screen, viewport, i, length).width
    ensures TileLayout(screen, viewport, i + 1, length).width == TileLayout(screen, viewport, i, length).width
    ensures length > 0 ==>
              TileLayout(screen, viewport, i, length).widthTotal
              == TileLayout(screen, viewport, length - 1, length).x + TileLayout(screen, viewport, i, length).width
  {
  }

  // ---------------------------------------------------------------------------
  // One tile in one frame

  /** Vertical offset and in-plane rotation of a tile. */
  datatype Pose = Pose(y: real, rotZ: real)

  /** The bend of the strip at horizontal position `x`: flat when `bend` is 0,
      otherwise a circular arc through the viewport edges. */
  function Curve(x: real, halfWidth: real, bend: real, trig: Trig): (p: Pose)
    ensures bend == 0.0 ==> p == Pose(0.0, 0.0)
  {
    if bend == 0.0 then Pose(0.0, 0.0)
    else
      var b := Abs(bend);
      var r := Radius(halfWidth, b);
      var ex := Min(Abs(x), halfWidth);
      var arc := Arc(r, ex, trig);
      var angle := trig.asin(ex / r);
      if bend > 0.0 then Pose(-arc, -Lean(x, angle)) else Pose(arc, Lean(x, angle))
  }

  /** Height of the arc at horizontal distance `ex` from the centre, on a circle of radius `r`. */
  function Arc(r: real, ex: real, trig: Trig): real
  {
    r - trig.sqrt(r * r - ex * ex)
  }

  /** Radius of the circle through the viewport edges that rises `b` at the centre. */
  function Radius(halfWidth: real, b: real): (r: real)
    requires b > 0.0
    ensures r > 0.0
    ensures r * (2.0 * b) == halfWidth * halfWidth + b * b
  {
    SumOfSquaresPositive(halfWidth, b);
    PositiveQuotient(halfWidth * halfWidth + b * b, 2.0 * b);
    (halfWidth * halfWidth + b * b) / (2.0 * b)
  }

  /** `Math.sign(x) * angle`. */
  function Lean(x: real, angle: real): (r: real)
    ensures r == Sign(x) * angle
  {
    if x > 0.0 then angle else if x < 0.0 then -angle else 0.0
  }

  /** Bending the other way mirrors the tile vertically and reverses its rotation. */
  lemma CurveMirror(x: real, halfWidth: real, bend: real, trig: Trig)
    ensures Curve(x, halfWidth, -bend, trig).y == -Curve(x, halfWidth, bend, trig).y
    ensures Curve(x, halfWidth, -bend, trig).rotZ == -Curve(x, halfWidth, bend, trig).rotZ
  {
    assert Abs(-bend) == Abs(bend);
  }

  /** The arc is symmetric about the centre: tiles at `x` and `-x` sit at the same
      height and lean by opposite angles. */
  lemma CurveSymmetric(x: real, halfWidth: real, bend: real, trig: Trig)
    ensures Curve(-x, halfWidth, bend, trig).y == Curve(x, halfWidth, bend, trig).y
    ensures Curve(-x, halfWidth, bend, trig).rotZ == -Curve(x, halfWidth, bend, trig).rotZ
  {
    assert Abs(-x) == Abs(x);
  }

  /** The per-frame state of one tile. */
  datatype Motion = Motion(extra: real, speed: real, posX: real, posY: real, rotZ: real,
                           isBefore: bool, isAfter: bool)

  /** A tile before its first frame. */
  const Rest: Motion := Motion(0.0, 0.0, 0.0, 0.0, 0.0, false, false)

  /** The tile lies wholly left of the viewport. */
  predicate WhollyLeft(posX: real, scaleX: real, viewportWidth: real)
  {
    posX + scaleX / 2.0 < -(viewportWidth / 2.0)
  }

  /** The tile lies wholly right of the viewport. */
  predicate WhollyRight(posX: real, scaleX: real, viewportWidth: real)
  {
    posX - scaleX / 2.0 > viewportWidth / 2.0
  }

  /** `Media.update`: the tile's new state after a frame that moved the scroll
      position from `last` to `current` in direction `dir`. */
  function Step(l: Layout, viewportWidth: real, bend: real, m: Motion,
                current: real, last: real, dir: Direction, trig: Trig): Motion
  {
    Wrap(l, Place(l, viewportWidth, bend, m, current, last, trig), dir)
  }

  /** The first half of a frame: position, pose, speed and edge flags. */
  function Place(l: Layout, viewportWidth: real, bend: real, m: Motion,
                 current: real, last: real, trig: Trig): Motion
  {
    var px := l.x - current - m.extra;
    var pose := Curve(px, viewportWidth / 2.0, bend, trig);
    Motion(m.extra, current - last, px, pose.y, pose.rotZ,
           WhollyLeft(px, l.scaleX, viewportWidth), WhollyRight(px, l.scaleX, viewportWidth))
  }

  /** The second half: a tile wholly behind the viewport in the scroll direction
      moves one strip length forward and clears its flags. */
  function Wrap(l: Layout, m: Motion, dir: Direction): Motion
  {
    if dir == Right && m.isBefore then m.(extra := m.extra - l.widthTotal, isBefore := false, isAfter := false)
    else if dir == Left && m.isAfter then m.(extra := m.extra + l.widthTotal, isBefore := false, isAfter := false)
    else m
  }

  /** What a frame does to one tile: its position is its layout slot minus the scroll
      position and its wrap offset; its speed is the frame's scroll delta; a tile
      wholly behind the viewport in the scroll direction moves by the strip length
      and clears both flags; otherwise the offset stays and the flags report the edges. */
  lemma StepEffect(l: Layout, vw: real, bend: real, m: Motion, current: real, last: real,
                   dir: Direction, trig: Trig)
    ensures var m' := Step(l, vw, bend, m, current, last, dir, trig);
      && m'.posX == l.x - current - m.extra
      && m'.speed == current - last
      && (dir == Right && WhollyLeft(m'.posX, l.scaleX, vw) ==>
            m'.extra == m.extra - l.widthTotal && !m'.isBefore && !m'.isAfter)
      && (dir == Left && WhollyRight(m'.posX, l.scaleX, vw) ==>
            m'.extra == m.extra + l.widthTotal && !m'.isBefore && !m'.isAfter)
      && (!(dir == Right && WhollyLeft(m'.posX, l.scaleX, vw)) && !(dir == Left && WhollyRight(m'.posX, l.scaleX, vw)) ==>
            m'.extra == m.extra && m'.isBefore == WhollyLeft(m'.posX, l.scaleX, vw)
            && m'.isAfter == WhollyRight(m'.posX, l.scaleX, vw))
  {
  }

  /** A flat strip keeps every tile level and unrotated, at every scroll position. */
  lemma FlatStrip(l: Layout, vw: real, m: Motion, current: real, last: real, dir: Direction, trig: Trig)
    ensures Step(l, vw, 0.0, m, current, last, dir, trig).posY == 0.0
    ensures Step(l, vw, 0.0, m, current, last, dir, trig).rotZ == 0.0
  {
  }

  /** The scroll position and previous position of one frame. */
  datatype Frame = Frame(current: real, last: real)

  /** Direction of a frame: right exactly when the position grew. */
  function DirectionOf(current: real, last: real): (d: Direction)
    ensures d == Right <==> current > last
  {
    if current > last then Right else Left
  }

  /** A tile's state after a run of frames with no resize in between. */
  function Run(l: Layout, vw: real, bend: real, m: Motion, frames: seq<Frame>, trig: Trig): Motion
    decreases |frames|
  {
    if frames == [] then m
    else
      var f := frames[0];
      Run(l, vw, bend, Step(l, vw, bend, m, f.current, f.last, DirectionOf(f.current, f.last), trig),
          frames[1..], trig)
  }

  /** One frame moves the wrap offset by -1, 0 or +1 strip lengths. */
  lemma {:induction false} StepKeepsExtraMultiple(l: Layout, vw: real, bend: real, m: Motion,
                                                  current: real, last: real, dir: Direction, trig: Trig)
    requires Congruent(m.extra, 0.0, l.widthTotal)
    ensures Congruent(Step(l, vw, bend, m, current, last, dir, trig).extra, 0.0, l.widthTotal)
  {
    var k: int :| m.extra - 0.0 == Times(k, l.widthTotal);
    var e := Step(l, vw, bend, m, current, last, dir, trig).extra;
    if e == m.extra - l.widthTotal {
      assert e - 0.0 == Times(k - 1, l.widthTotal);
    } else if e == m.extra + l.widthTotal {
      assert e - 0.0 == Times(k + 1, l.widthTotal);
    } else {
      assert e - 0.0 == Times(k, l.widthTotal);
    }
  }

  /** Starting from a whole number of strip lengths (zero, at construction), the wrap
      offset stays a whole number of strip lengths for as long as no resize happens. */
  lemma {:induction false} RunKeepsExtraMultiple(l: Layout, vw: real, bend: real, m: Motion,
                                                 frames: seq<Frame>, trig: Trig)
    requires Congruent(m.extra, 0.0, l.widthTotal)
    ensures Congruent(Run(l, vw, bend, m, frames, trig).extra, 0.0, l.widthTotal)
    decreases |frames|
  {
    if frames != [] {
      var f := frames[0];
      var m1 := Step(l, vw, bend, m, f.current, f.last, DirectionOf(f.current, f.last), trig);
      StepKeepsExtraMultiple(l, vw, bend, m, f.current, f.last, DirectionOf(f.current, f.last), trig);
      RunKeepsExtraMultiple(l, vw, bend, m1, frames[1..], trig);
    }
  }

  /** A tile built at rest and run through any frames without a resize keeps
      its wrap offset a whole number of strip lengths, so it only ever shows
      the strip's own positions. */
  lemma RestRunAligned(l: Layout, vw: real, bend: real, frames: seq<Frame>, trig: Trig)
    ensures Congruent(Run(l, vw, bend, Rest, frames, trig).extra, 0.0, l.widthTotal)
  {
    assert Rest.extra - 0.0 == Times(0, l.widthTotal);
    RunKeepsExtraMultiple(l, vw, bend, Rest, frames, trig);
  }

  // ---------------------------------------------------------------------------
  // Snapping

  /** `Math.round(Math.abs(target) / width)`: the number of whole tiles nearest the target's magnitude. */
  function SnapIndex(target: real, width: real): (k: nat)
    requires width > 0.0
    ensures Times(k, width) - width / 2.0 <= Abs(target) < Times(k, width) + width / 2.0
  {
    var k := Round(Abs(target) / width);
    NearestMultiple(Abs(target), width, k);
    k
  }

  lemma NearestMultiple(a: real, w: real, k: int)
    requires w > 0.0 && a >= 0.0
    requires k as real - 0.5 <= a / w < k as real + 0.5
    ensures Times(k, w) - w / 2.0 <= a < Times(k, w) + w / 2.0
  {
    var q := a / w;
    assert q * w == a;
    LowerBracket(q, w, k as real, a);
    UpperBracket(q, w, k as real, a);
  }

  lemma LowerBracket(q: real, w: real, kr: real, a: real)
    requires w > 0.0 && q * w == a && kr - 0.5 <= q
    ensures kr * w - w / 2.0 <= a
  {
    var d1 := q - kr + 0.5;
    MulNonNeg(d1, w);
    assert d1 * w >= 0.0;
    assert d1 * w == q * w - kr * w + 0.5 * w;
  }

  lemma UpperBracket(q: real, w: real, kr: real, a: real)
    requires w > 0.0 && q * w == a && q < kr + 0.5
    ensures a < kr * w + w / 2.0
  {
    var d2 := kr + 0.5 - q;
    MulPos(d2, w);
    assert d2 * w > 0.0;
    assert d2 * w == kr * w + 0.5 * w - q * w;
  }

  lemma SumOfSquaresPositive(h: real, b: real)
    requires b > 0.0
    ensures h * h + b * b > 0.0
  {
  }

  lemma PositiveQuotient(x: real, y: real)
    requires x > 0.0 && y > 0.0
    ensures x / y > 0.0
  {
  }

  /** The snapped target: the nearest whole multiple of the tile width, with the target's sign. */
  function SnapTarget(target: real, width: real): (s: real)
    requires width > 0.0
    ensures Abs(s - target) <= width / 2.0
    ensures Abs(s) == Times(SnapIndex(target, width), width)
    ensures target >= 0.0 ==> s >= 0.0
    ensures target < 0.0 ==> s <= 0.0
  {
    var k := SnapIndex(target, width);
    var item := width * k as real;
    MulNonNeg(k as real, width);
    if target < 0.0 then -item else item
  }

  /** Snapping twice is snapping once: the target and the reported index stay put. */
  lemma SnapIdempotent(target: real, width: real)
    requires width > 0.0
    ensures SnapIndex(SnapTarget(target, width), width) == SnapIndex(target, width)
    ensures SnapTarget(SnapTarget(target, width), width) == SnapTarget(target, width)
  {
    var k := SnapIndex(target, width);
    var s := SnapTarget(target, width);
    var kw := Times(k, width);
    assert Abs(s) == kw;
    WholeQuotient(k, width);
    assert Abs(s) / width == k as real;
    assert Round(k as real) == k;
  }

  lemma WholeQuotient(k: int, w: real)
    requires w > 0.0
    ensures Times(k, w) / w == k as real
  {
  }

  /** The index reported as written: `itemIndex % (tiles / 2)`. */
  function ReportedIndex(target: real, width: real, n: nat): (i: nat)
    requires width > 0.0 && n > 0
    ensures i < n
  {
    SnapIndex(target, width) % n
  }

  /** As written, a target and its mirror image report the same item. */
  lemma ReportedIndexIgnoresSign(target: real, width: real, n: nat)
    requires width > 0.0 && n > 0
    ensures ReportedIndex(-target, width, n) == ReportedIndex(target, width, n)
  {
    assert Abs(-target) == Abs(target);
  }

  /** As written, the report misses the centred tile once the strip is scrolled
      below zero: three items, tile width 3 (a tile 1 unit wide plus the padding),
      target -3 reports item 1, yet the tile at the centre is tile 5 (wrapped
      once), which shows item 2. */
  lemma ReportedIndexMissesCentre()
    ensures ReportedIndex(-3.0, 3.0, 3) == 1
    ensures SnapTarget(-3.0, 3.0) == -3.0
    ensures var l := TileLayoutOf(3.0, 5, 6);
      l.scaleX == 1.0 && l.x - SnapTarget(-3.0, 3.0) - l.widthTotal == 0.0 && 5 % 3 == 2
    ensures CentreIndex(-3.0, 3.0, 3) == 2
  {
    assert SnapIndex(-3.0, 3.0) == 1;
  }

  /** Placement of tile `index` of `length` for a tile width `w`, without the screen arithmetic. */
  function TileLayoutOf(w: real, index: nat, length: nat): Layout
  {
    Layout(w - Padding, 0.0, w, w * length as real, w * index as real)
  }

  /** The item at the centre after snapping: the signed tile count modulo the item count. */
  function CentreIndex(target: real, width: real, n: nat): (i: nat)
    requires width > 0.0 && n > 0
    ensures i < n
    ensures target >= 0.0 ==> i == ReportedIndex(target, width, n)
  {
    var k := SnapIndex(target, width);
    if target < 0.0 then (-(k as int)) % n else k % n
  }

  /** Snapping again reports the same centred item. */
  lemma CentreIndexStable(target: real, width: real, n: nat)
    requires width > 0.0 && n > 0
    ensures CentreIndex(SnapTarget(target, width), width, n) == CentreIndex(target, width, n)
  {
    SnapIdempotent(target, width);
  }

  /** After snapping, whichever of the `2n` tiles sits exactly at the centre shows
      item `CentreIndex`, whatever whole number of strip lengths it has wrapped by. */
  lemma CentredTileShowsCentreIndex(target: real, width: real, n: nat, j: nat, wraps: int)
    requires width > 0.0 && n > 0 && j < 2 * n
    requires width * j as real - SnapTarget(target, width) - Times(wraps, width * (2 * n) as real) == 0.0
    ensures j % n == CentreIndex(target, width, n)
  {
    var s := SignedIndex(target, width);
    SnapTargetSigned(target, width);
    var c: int := n * (2 * wraps);
    TimesScaled(wraps, n, width, c);
    FactorOut(j, s, c, width);
    ZeroFactor((j - s - c) as real, width);
    ModAddMultiple(s, n, 2 * wraps);
  }

  /** The snapped tile count, negative for a negative target. */
  function SignedIndex(target: real, width: real): int
    requires width > 0.0
  {
    var k := SnapIndex(target, width);
    if target < 0.0 then -(k as int) else k
  }

  /** The snapped target is the signed tile count times the tile width. */
  lemma SnapTargetSigned(target: real, width: real)
    requires width > 0.0
    ensures SnapTarget(target, width) == SignedIndex(target, width) as real * width
  {
    var k := SnapIndex(target, width);
    if target < 0.0 {
      NegateCount(k, width);
    }
  }

  lemma NegateCount(k: int, width: real)
    ensures -(width * k as real) == (-k) as real * width
  {
  }

  /** `wraps` strip lengths of `2n` tiles each are `c = n * (2 * wraps)` tile widths. */
  lemma TimesScaled(wraps: int, n: int, width: real, c: int)
    requires c == n * (2 * wraps)
    ensures Times(wraps, width * (2 * n) as real) == c as real * width
  {
  }

  /** Collecting three multiples of `width` into one. */
  lemma FactorOut(j: int, s: int, c: int, width: real)
    ensures width * j as real - s as real * width - c as real * width == (j - s - c) as real * width
  {
  }

  /** A product with a non-zero factor is zero only when the other factor is. */
  lemma ZeroFactor(x: real, w: real)
    requires w != 0.0 && x * w == 0.0
    ensures x == 0.0
  {
  }

  /** Adding whole multiples of `n` does not change the remainder modulo `n`. */
  lemma ModAddMultiple(a: int, n: nat, c: int)
    requires n > 0
    ensures (a + n * c) % n == a % n
  {
    var q, r := a / n, a % n;
    assert a == n * q + r;
    assert a + n * c == n * (q + c) + r;
    ModUnique(a + n * c, n, q + c, r);
  }

  /** Quotient and remainder are the only ones with the remainder in `[0, n)`. */
  lemma ModUnique(x: int, n: int, q: int, r: int)
    requires n > 0 && 0 <= r < n && x == n * q + r
    ensures x % n == r
  {
    var q2, r2 := x / n, x % n;
    assert x == n * q2 + r2;
    assert n * (q - q2) == r2 - r;
    SmallMultiple(n, q - q2);
  }

  /** A multiple of `n` strictly between `-n` and `n` is zero. */
  lemma SmallMultiple(n: int, d: int)
    requires n > 0 && -n < n * d < n
    ensures d == 0
  {

  }

  // ---------------------------------------------------------------------------
  // Input

  /** Scroll target while dragging: the position at touch-down plus the distance dragged. */
  function DragTarget(position: real, start: real, x: real, scrollSpeed: real): (r: real)
    ensures x == start ==> r == position
  {
    position + (start - x) * (scrollSpeed * 0.025)
  }

  /** Dragging further left scrolls further right (for a positive speed), and
      returning to the starting point restores the position at touch-down. */
  lemma DragMonotone(position: real, start: real, x1: real, x2: real, scrollSpeed: real)
    requires scrollSpeed > 0.0 && x1 < x2
    ensures DragTarget(position, start, x1, scrollSpeed) > DragTarget(position, start, x2, scrollSpeed)
    ensures DragTarget(position, start, start, scrollSpeed) == position
  {
    var k, d1, d2 := scrollSpeed * 0.025, start - x1, start - x2;
    assert DragTarget(position, start, x1, scrollSpeed) == position + d1 * k;
    assert DragTarget(position, start, x2, scrollSpeed) == position + d2 * k;
    MulPos(scrollSpeed, 0.025);
    MulPos(d1 - d2, k);
    assert d1 * k - d2 * k == (d1 - d2) * k;
  }

  /** `e.deltaY || e.wheelDelta || e.detail`: the first non-zero of the three readings. */
  function WheelDelta(deltaY: real, wheelDelta: real, detail: real): (d: real)
    ensures d != 0.0 ==> d == deltaY || d == wheelDelta || d == detail
    ensures deltaY != 0.0 ==> d == deltaY
    ensures deltaY == 0.0 && wheelDelta != 0.0 ==> d == wheelDelta
    ensures deltaY == 0.0 && wheelDelta == 0.0 ==> d == detail
  {
    if deltaY != 0.0 then deltaY else if wheelDelta != 0.0 then wheelDelta else detail
  }

  /** One wheel notch moves the target by a fifth of the scroll speed, forward
      for a positive delta and backward otherwise (a zero delta included). */
  function WheelStep(delta: real, scrollSpeed: real): (s: real)
    ensures Abs(s) == Abs(scrollSpeed) / 5.0
    ensures delta > 0.0 ==> s == scrollSpeed / 5.0
    ensures delta <= 0.0 ==> s == -scrollSpeed / 5.0
  {
    (if delta > 0.0 then scrollSpeed else -scrollSpeed) * 0.2
  }

  // ---------------------------------------------------------------------------
  // The objects

  /** One tile of the strip. */
  class Media {
    const image: string
    const caption: string
    const index: nat
    const length: nat
    const bend: real
    var screen: Size
    var viewport: Size
    var scaleX: real
    var scaleY: real
    var width: real
    var widthTotal: real
    var x: real
    var extra: real
    var speed: real
    var posX: real
    var posY: real
    var rotZ: real
    var isBefore: bool
    var isAfter: bool

    function Placement(): Layout
      reads this`scaleX, this`scaleY, this`width, this`widthTotal, this`x
    {
      Layout(scaleX, scaleY, width, widthTotal, x)
    }

    function State(): Motion
      reads this`extra, this`speed, this`posX, this`posY, this`rotZ, this`isBefore, this`isAfter
    {
      Motion(extra, speed, posX, posY, rotZ, isBefore, isAfter)
    }

    /** The placement is the one the current sizes give, so the tile has a positive width. */
    ghost predicate Valid()
      reads this`screen, this`viewport, this`scaleX, this`scaleY, this`width, this`widthTotal, this`x
    {
      && Measurable(screen, viewport)
      && Placement() == TileLayout(screen, viewport, index, length)
      && width >= Padding
    }

    constructor (image: string, caption: string, index: nat, length: nat, bend: real,
                 screen: Size, viewport: Size)
      requires Measurable(screen, viewport)
      ensures Valid()
      ensures this.image == image && this.caption == caption && this.index == index
      ensures this.length == length && this.bend == bend
      ensures this.screen == screen && this.viewport == viewport
      ensures State() == Rest
    {
      this.image := image;
      this.caption := caption;
      this.index := index;
      this.length := length;
      this.bend := bend;
      this.screen := screen;
      this.viewport := viewport;
      extra, speed, posX, posY, rotZ := 0.0, 0.0, 0.0, 0.0, 0.0;
      isBefore, isAfter := false, false;
      new;
      OnResize(screen, viewport);
    }

    /** `onResize`: recompute size, spacing and strip length; the scroll state is kept. */
    method OnResize(screen: Size, viewport: Size)
      requires Measurable(screen, viewport)
      modifies this`screen, this`viewport, this`scaleX, this`scaleY, this`width, this`widthTotal, this`x
      ensures Valid() && this.screen == screen && this.viewport == viewport
      ensures State() == old(State())
    {
      this.screen := screen;
      this.viewport := viewport;
      var scale := screen.height / 1500.0;
      scaleY := viewport.height * (900.0 * scale) / screen.height;
      scaleX := viewport.width * (700.0 * scale) / screen.width;
      width := scaleX + Padding;
      widthTotal := width * length as real;
      x := width * index as real;
      LayoutScales(screen, viewport, scale, scaleX, scaleY);
    }

    /** `update`: one frame of this tile. */
    method Update(current: real, last: real, dir: Direction, trig: Trig)
      modifies this`extra, this`speed, this`posX, this`posY, this`rotZ, this`isBefore, this`isAfter
      ensures State() == Step(Placement(), viewport.width, bend, old(State()), current, last, dir, trig)
    {
      Position(current, last);
      Bend(trig);
      WrapAround(dir);
    }

    /** Position, speed and edge flags for this frame. */
    method Position(current: real, last: real)
      modifies this`speed, this`posX, this`isBefore, this`isAfter
      ensures posX == x - current - extra && speed == current - last
      ensures isBefore == WhollyLeft(posX, scaleX, viewport.width)
      ensures isAfter == WhollyRight(posX, scaleX, viewport.width)
    {
      posX := x - current - extra;
      speed := current - last;
      var planeOffset := scaleX / 2.0;
      var viewportOffset := viewport.width / 2.0;
      isBefore := posX + planeOffset < -viewportOffset;
      isAfter := posX - planeOffset > viewportOffset;
    }

    /** The height and rotation for the current position on the curved strip. */
    method Bend(trig: Trig)
      modifies this`posY, this`rotZ
      ensures Pose(posY, rotZ) == Curve(posX, viewport.width / 2.0, bend, trig)
    {
      var pose := Curve(posX, viewport.width / 2.0, bend, trig);
      posY, rotZ := pose.y, pose.rotZ;
    }

    /** The second half of `update`: the wraparound in the scroll direction. */
    method WrapAround(dir: Direction)
      modifies this`extra, this`isBefore, this`isAfter
      ensures State() == Wrap(Placement(), old(State()), dir)
    {
      if dir == Right && isBefore {
        extra := extra - widthTotal;
        isBefore, isAfter := false, false;
      }
      if dir == Left && isAfter {
        extra := extra + widthTotal;
        isBefore, isAfter := false, false;
      }
    }
  }

  /** Tile `i` of `images` as its constructor leaves it: laid out for the given
      sizes, and not yet moved. */
  ghost predicate NewTile(m: Media, i: nat, images: seq<GalleryItem>, bend: real,
                          screen: Size, viewport: Size)
    requires i < |images|
    reads m`screen, m`viewport, m`scaleX, m`scaleY, m`width, m`widthTotal, m`x
    reads m`extra, m`speed, m`posX, m`posY, m`rotZ, m`isBefore, m`isAfter
  {
    && m.Valid() && m.index == i && m.length == |images| && m.bend == bend
    && m.screen == screen && m.viewport == viewport
    && m.image == images[i].image && m.caption == images[i].text
    && m.State() == Rest
  }

  /** The loop of `createMedias`: one fresh tile per entry of `images`, in order. */
  method NewTiles(images: seq<GalleryItem>, bend: real, screen: Size, viewport: Size)
    returns (ms: seq<Media>)
    requires Measurable(screen, viewport)
    ensures |ms| == |images|
    ensures forall i, j :: 0 <= i < j < |ms| ==> ms[i] != ms[j]
    ensures forall i :: 0 <= i < |ms| ==> fresh(ms[i]) && NewTile(ms[i], i, images, bend, screen, viewport)
  {
    ms := [];
    while |ms| < |images|
      invariant |ms| <= |images|
      invariant forall i, j :: 0 <= i < j < |ms| ==> ms[i] != ms[j]
      invariant forall i :: 0 <= i < |ms| ==> fresh(ms[i]) && NewTile(ms[i], i, images, bend, screen, viewport)
      decreases |images| - |ms|
    {
      var i := |ms|;
      var m := new Media(images[i].image, images[i].text, i, |images|, bend, screen, viewport);
      ms := ms + [m];
    }
  }

  /** A tile whose layout and sizes are what they were. */
  twostate predicate Settled(m: Media)
    reads m`scaleX, m`scaleY, m`width, m`widthTotal, m`x, m`screen, m`viewport
  {
    m.Placement() == old(m.Placement()) && m.screen == old(m.screen) && m.viewport == old(m.viewport)
  }

  /** A tile that has run one frame from `last` to `current` in direction `dir`. */
  twostate predicate Stepped(m: Media, current: real, last: real, dir: Direction, trig: Trig)
    reads m`scaleX, m`scaleY, m`width, m`widthTotal, m`x, m`viewport
    reads m`extra, m`speed, m`posX, m`posY, m`rotZ, m`isBefore, m`isAfter
  {
    m.State() == Step(m.Placement(), m.viewport.width, m.bend, old(m.State()), current, last, dir, trig)
  }

  /** The loop of `update`: every tile runs the same frame. */
  method StepTiles(ms: seq<Media>, current: real, last: real, dir: Direction, trig: Trig)
    requires forall i, j :: 0 <= i < j < |ms| ==> ms[i] != ms[j]
    modifies ms
    ensures forall i :: 0 <= i < |ms| ==> Settled(ms[i]) && Stepped(ms[i], current, last, dir, trig)
  {
    var i := 0;
    while i < |ms|
      invariant 0 <= i <= |ms|
      invariant forall j :: 0 <= j < |ms| ==>
        && Settled(ms[j])
        && if j < i then Stepped(ms[j], current, last, dir, trig)
           else ms[j].State() == old(ms[j].State())
    {
      ms[i].Update(current, last, dir, trig);
      i := i + 1;
    }
  }

  /** The loop of `onResize`: every tile is laid out again for the new sizes, and
      keeps its scroll state. */
  method ResizeTiles(ms: seq<Media>, screen: Size, viewport: Size)
    requires Measurable(screen, viewport)
    requires forall i, j :: 0 <= i < j < |ms| ==> ms[i] != ms[j]
    modifies ms
    ensures forall i :: 0 <= i < |ms| ==>
      && ms[i].Valid() && ms[i].screen == screen && ms[i].viewport == viewport
      && ms[i].State() == old(ms[i].State())
  {
    var i := 0;
    while i < |ms|
      invariant 0 <= i <= |ms|
      invariant forall j :: 0 <= j < |ms| ==> ms[j].State() == old(ms[j].State())
      invariant forall j :: 0 <= j < i ==>
        ms[j].Valid() && ms[j].screen == screen && ms[j].viewport == viewport
    {
      ms[i].OnResize(screen, viewport);
      i := i + 1;
    }
  }

  /** The gallery: scroll state, input state and the tiles. */
  class App {
    var medias: seq<Media>
    var mediasImages: seq<GalleryItem>
    var screen: Size
    var viewport: Size
    const scrollSpeed: real
    const ease: real
    const bend: real
    const hasIndexListener: bool
    var current: real
    var target: real
    var last: real
    var position: real
    var isDown: bool
    var start: real
    /** Indices passed to `onIndexChange`, oldest first. */
    var notified: seq<nat>

    /** No tile object appears twice in the strip. */
    ghost predicate Distinct()
      reads this`medias
    {
      forall i, j :: 0 <= i < j < |medias| ==> medias[i] != medias[j]
    }

    /** Tiles are distinct, numbered in order and show the tile list. */
    ghost predicate Shape()
      reads this`medias, this`mediasImages
    {
      && Distinct()
      && |mediasImages| == |medias| && |medias| % 2 == 0
      && (forall i :: 0 <= i < |medias| ==>
            && medias[i].index == i && medias[i].length == |medias| && medias[i].bend == bend
            && medias[i].image == mediasImages[i].image && medias[i].caption == mediasImages[i].text)
    }

    /** The shape holds, and every tile is laid out for the gallery's current sizes. */
    ghost predicate Valid()
      reads this`medias, this`mediasImages, this`screen, this`viewport, medias
    {
      && Measurable(screen, viewport)
      && Shape()
      && (forall i :: 0 <= i < |medias| ==>
            medias[i].Valid() && medias[i].screen == screen && medias[i].viewport == viewport)
    }

    /** A frame leaves the layout alone, so it keeps the gallery valid. */
    twostate lemma FrameKeepsValid()
      requires old(Valid())
      requires medias == old(medias) && mediasImages == old(mediasImages)
      requires screen == old(screen) && viewport == old(viewport)
      requires forall j :: 0 <= j < |medias| ==> Settled(medias[j])
      ensures Valid()
    {
      forall j | 0 <= j < |medias|
        ensures medias[j].Valid()
      {
        assert old(medias[j].Valid());
      }
    }

    /** Build the gallery with every tile at rest. The constructor's closing call to
        `update`, which starts the frame loop, is the host's first `Update`. */
    constructor (items: seq<GalleryItem>, bend: real, scrollSpeed: real, scrollEase: real,
                 hasIndexListener: bool, screen: Size, viewport: Size)
      requires Measurable(screen, viewport)
      ensures Valid()
      ensures this.bend == bend && this.scrollSpeed == scrollSpeed && this.ease == scrollEase
      ensures this.hasIndexListener == hasIndexListener
      ensures this.screen == screen && this.viewport == viewport
      ensures mediasImages == Duplicate(items)
      ensures forall i :: 0 <= i < |medias| ==> fresh(medias[i]) && medias[i].State() == Rest
      ensures current == 0.0 && target == 0.0 && last == 0.0
      ensures !isDown && notified == []
    {
      this.bend := bend;
      this.scrollSpeed := scrollSpeed;
      this.ease := scrollEase;
      this.hasIndexListener := hasIndexListener;
      this.screen := screen;
      this.viewport := viewport;
      medias, mediasImages := [], [];
      current, target, last, position := 0.0, 0.0, 0.0, 0.0;
      isDown, start := false, 0.0;
      notified := [];
      new;
      CreateMedias(items);
    }

    /** `createMedias`: one fresh tile per entry of the doubled list, all at rest. */
    method CreateMedias(items: seq<GalleryItem>)
      requires Measurable(screen, viewport)
      modifies this`medias, this`mediasImages
      ensures Valid()
      ensures mediasImages == Duplicate(items)
      ensures forall i :: 0 <= i < |medias| ==> fresh(medias[i]) && medias[i].State() == Rest
    {
      var images := Duplicate(items);
      var ms := NewTiles(images, bend, screen, viewport);
      mediasImages := images;
      medias := ms;
    }

    /** `update`: one animation frame. The position eases toward the target, every
        tile steps with the same direction and scroll delta, and `last` catches up.
        Layouts and sizes are untouched, so `FrameKeepsValid` carries `Valid` across. */
    method Update(trig: Trig)
      requires Valid()
      modifies this`current, this`last, medias
      ensures Valid()
      ensures current == Lerp(old(current), target, ease)
      ensures last == current
      ensures forall i :: 0 <= i < |medias| ==>
        Settled(medias[i]) && Stepped(medias[i], current, old(last), DirectionOf(current, old(last)), trig)
    {
      current := Lerp(current, target, ease);
      var dir := DirectionOf(current, last);
      StepTiles(medias, current, last, dir, trig);
      last := current;
      FrameKeepsValid();
    }

    /** `onResize` with the measured sizes: every tile is laid out again, scroll kept. */
    method OnResize(screen: Size, viewport: Size)
      requires Shape() && Measurable(screen, viewport)
      modifies this`screen, this`viewport, medias
      ensures Valid() && this.screen == screen && this.viewport == viewport
      ensures forall i :: 0 <= i < |medias| ==>
        && medias[i].Placement() == TileLayout(screen, viewport, i, |medias|)
        && medias[i].State() == old(medias[i].State())
    {
      this.screen := screen;
      this.viewport := viewport;
      ResizeTiles(medias, screen, viewport);
    }

    /** `onCheck`: snap the target to the nearest whole tile and report
        `itemIndex % (tiles / 2)`, as the component computes it. */
    method OnCheck()
      requires Valid()
      modifies this`target, this`notified
      ensures |medias| == 0 ==> target == old(target) && notified == old(notified)
      ensures |medias| > 0 ==>
        && target == SnapTarget(old(target), medias[0].width)
        && notified == old(notified) +
             (if hasIndexListener then [ReportedIndex(old(target), medias[0].width, |medias| / 2)] else [])
    {
      if |medias| == 0 {
        return;
      }
      assert medias[0].Valid();
      var width := medias[0].width;
      var itemIndex := Round(Abs(target) / width);
      var item := width * itemIndex as real;
      var logicalIndex := itemIndex % (|mediasImages| / 2);
      target := if target < 0.0 then -item else item;
      if hasIndexListener {
        notified := notified + [logicalIndex];
      }
    }

    /** The snap `onCheck` evidently intends: the same target, but the item
        reported is the one on the tile that the snap brings to the centre. */
    method OnCheckCentred()
      requires Valid()
      modifies this`target, this`notified
      ensures |medias| == 0 ==> target == old(target) && notified == old(notified)
      ensures |medias| > 0 ==>
        && target == SnapTarget(old(target), medias[0].width)
        && notified == old(notified) +
             (if hasIndexListener then [CentreIndex(old(target), medias[0].width, |medias| / 2)] else [])
    {
      if |medias| == 0 {
        return;
      }
      assert medias[0].Valid();
      var width := medias[0].width;
      var logicalIndex := CentreIndex(target, width, |mediasImages| / 2);
      target := SnapTarget(target, width);
      if hasIndexListener {
        notified := notified + [logicalIndex];
      }
    }

    /** `onTouchDown` at horizontal cursor position `x`. */
    method OnTouchDown(x: real)
      modifies this`isDown, this`position, this`start
      ensures isDown && position == current && start == x
    {
      isDown := true;
      position := current;
      start := x;
    }

    /** `onTouchMove` to horizontal cursor position `x`: no effect unless down. */
    method OnTouchMove(x: real)
      modifies this`target
      ensures isDown ==> target == DragTarget(position, start, x, scrollSpeed)
      ensures !isDown ==> target == old(target)
    {
      if !isDown {
        return;
      }
      var distance := (start - x) * (scrollSpeed * 0.025);
      target := position + distance;
    }

    /** `onTouchUp`: release, then snap. */
    method OnTouchUp()
      requires Valid()
      modifies this`isDown, this`target, this`notified
      ensures !isDown
      ensures |medias| == 0 ==> target == old(target) && notified == old(notified)
      ensures |medias| > 0 ==>
        && target == SnapTarget(old(target), medias[0].width)
        && notified == old(notified) +
             (if hasIndexListener then [ReportedIndex(old(target), medias[0].width, |medias| / 2)] else [])
    {
      isDown := false;
      OnCheck();
    }

    /** `onWheel`: one notch forward or back; the snap follows when the host's timer fires. */
    method OnWheel(deltaY: real, wheelDelta: real, detail: real)
      modifies this`target
      ensures target == old(target) + WheelStep(WheelDelta(deltaY, wheelDelta, detail), scrollSpeed)
    {
      var delta := WheelDelta(deltaY, wheelDelta, detail);
      target := target + (if delta > 0.0 then scrollSpeed else -scrollSpeed) * 0.2;
    }
  }
}
