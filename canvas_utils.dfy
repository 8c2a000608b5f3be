/**
 * Geometry and drawing helpers of the wall (src/lib/utils/canvas.ts):
 * pointer position to cell, cell to on-screen square, and the sequence of
 * drawing operations `renderCanvas` issues for a pixel map.
 *
 * The 2D drawing context is a recorder: it keeps its `fillStyle` and the
 * list of rectangle operations issued on it, which is all these helpers do
 * with it.
 */
module CanvasUtils {
  import opened Wrappers
  import opened Constants
  import opened PixelKeys

  /** A cell of the wall, in cell units. */
  datatype Cell = Cell(x: int, y: int)

  predicate InCanvas(x: int, y: int) {
    0 <= x < CANVAS_SIZE && 0 <= y < CANVAS_SIZE
  }

  // ---------------------------------------------------------------------
  // Pointer position to cell

  /** `Math.floor(offset / SCALE)`: the cell index of an offset in canvas pixels. */
  function CellIndex(offset: real): (i: int)
    ensures (i * SCALE) as real <= offset < ((i + 1) * SCALE) as real
  {
    (offset / SCALE as real).Floor
  }

  /**
   * `getPixelCoordinates`: the cell under a pointer at (`clientX`, `clientY`)
   * on a canvas whose top-left corner is at (`left`, `top`), or `None`
   * when that cell is off the wall.
   */
  function PixelCoordinates(clientX: real, clientY: real, left: real, top: real): (r: Option<Cell>)
    ensures r.Some? <==> InCanvas(CellIndex(clientX - left), CellIndex(clientY - top))
    ensures r.Some? ==> InCanvas(r.value.x, r.value.y)
    ensures r.Some? ==> r.value == Cell(CellIndex(clientX - left), CellIndex(clientY - top))
  {
    var x := CellIndex(clientX - left);
    var y := CellIndex(clientY - top);
    if x < 0 || x >= CANVAS_SIZE || y < 0 || y >= CANVAS_SIZE then None
    else Some(Cell(x, y))
  }

  /** A pointer left of or above the canvas is never on a cell. */
  lemma NegativeOffsetIsOffCanvas(clientX: real, clientY: real, left: real, top: real)
    requires clientX < left || clientY < top
    ensures PixelCoordinates(clientX, clientY, left, top) == None
  {
  }

  // ---------------------------------------------------------------------
  // Cell to square

  /** A canvas rectangle; its corner is `NonInt` when computed from a non-number. */
  datatype Rect = Rect(x: Num, y: Num, w: int, h: int)

  /** `n * SCALE` in JavaScript: a non-number stays a non-number. */
  function Scaled(n: Num): Num {
    match n
    case Int(v) => Int(v * SCALE)
    case NonInt => NonInt
  }

  /** The `SCALE`-by-`SCALE` square that `drawPixel` and `clearPixel` address. */
  function PixelRect(x: Num, y: Num): (r: Rect)
    ensures r.w == SCALE && r.h == SCALE
    ensures r.x.Int? && r.y.Int? <==> x.Int? && y.Int?
    ensures x.Int? && y.Int? && InCanvas(x.value, y.value) ==> Within(r, CanvasRect)
  {
    Rect(Scaled(x), Scaled(y), SCALE, SCALE)
  }

  /** The whole drawing surface, `CANVAS_SIZE * SCALE` on each side. */
  const CanvasRect: Rect := Rect(Int(0), Int(0), CANVAS_SIZE * SCALE, CANVAS_SIZE * SCALE)

  /** Whether the point (`px`, `py`) of the canvas lies inside `r`. */
  predicate Contains(r: Rect, px: real, py: real) {
    && r.x.Int? && r.y.Int?
    && r.x.value as real <= px < (r.x.value + r.w) as real
    && r.y.value as real <= py < (r.y.value + r.h) as real
  }

  /** Whether `inner` lies entirely inside `outer`. */
  predicate Within(inner: Rect, outer: Rect) {
    && inner.x.Int? && inner.y.Int? && outer.x.Int? && outer.y.Int?
    && outer.x.value <= inner.x.value && inner.x.value + inner.w <= outer.x.value + outer.w
    && outer.y.value <= inner.y.value && inner.y.value + inner.h <= outer.y.value + outer.h
  }

  /**
   * Round trip: every point of the square drawn for an on-wall cell maps
   * back to that cell.
   */
  lemma PixelRectMapsBack(x: int, y: int, px: real, py: real, left: real, top: real)
    requires InCanvas(x, y)
    requires Contains(PixelRect(Int(x), Int(y)), px, py)
    ensures PixelCoordinates(left + px, top + py, left, top) == Some(Cell(x, y))
  {
  }

  /** Conversely, a pointer that maps to a cell lies inside that cell's square. */
  lemma PixelCoordinatesInsideRect(clientX: real, clientY: real, left: real, top: real)
    requires PixelCoordinates(clientX, clientY, left, top).Some?
    ensures var c := PixelCoordinates(clientX, clientY, left, top).value;
      Contains(PixelRect(Int(c.x), Int(c.y)), clientX - left, clientY - top)
  {
  }

  /** The squares of two different cells never overlap: a point lies in at most one. */
  lemma PixelRectsDisjoint(a: Cell, b: Cell, px: real, py: real)
    requires Contains(PixelRect(Int(a.x), Int(a.y)), px, py)
    requires Contains(PixelRect(Int(b.x), Int(b.y)), px, py)
    ensures a == b
  {
  }

  /** The full clear in `renderCanvas` covers the square of every on-wall cell. */
  lemma PixelRectWithinCanvas(x: int, y: int)
    requires InCanvas(x, y)
    ensures Within(PixelRect(Int(x), Int(y)), CanvasRect)
  {
  }

  // ---------------------------------------------------------------------
  // Drawing

  /** One rectangle operation issued on a 2D context. */
  datatype Op = Fill(rect: Rect, style: string) | Clear(rect: Rect)

  /** A 2D drawing context, recording the operations issued on it. */
  class RenderingContext {
    var fillStyle: string
    var ops: seq<Op>

    /** A fresh context: the default fill style is opaque black, nothing drawn. */
    constructor ()
      ensures fillStyle == "#000000" && ops == []
    {
      fillStyle := "#000000";
      ops := [];
    }
  }

  /** `drawPixel`: fill the square of cell (`x`, `y`) with `color`. */
  method DrawPixel(ctx: RenderingContext, x: Num, y: Num, color: string)
    modifies ctx
    ensures ctx.fillStyle == color
    ensures ctx.ops == old(ctx.ops) + [Fill(PixelRect(x, y), color)]
  {
    ctx.fillStyle := color;
    ctx.ops := ctx.ops + [Fill(PixelRect(x, y), ctx.fillStyle)];
  }

  /** `clearPixel`: clear the square of cell (`x`, `y`), the one `DrawPixel` fills. */
  method ClearPixel(ctx: RenderingContext, x: Num, y: Num)
    modifies ctx
    ensures ctx.fillStyle == old(ctx.fillStyle)
    ensures ctx.ops == old(ctx.ops) + [Clear(PixelRect(x, y))]
  {
    ctx.ops := ctx.ops + [Clear(PixelRect(x, y))];
  }

  /** The fill `renderCanvas` issues for the entry of `pixels` under `key`. */
  function DrawFor(pixels: map<string, string>, key: string): (op: Op)
    requires key in pixels
    ensures op.Fill? && op.style == pixels[key]
    ensures op.rect.w == SCALE && op.rect.h == SCALE
  {
    var (x, y) := ParseKey(key);
    Fill(PixelRect(x, y), pixels[key])
  }

  /** The fills for the entries of `pixels` visited in the order `order`. */
  function DrawsFor(pixels: map<string, string>, order: seq<string>): (ops: seq<Op>)
    requires forall i :: 0 <= i < |order| ==> order[i] in pixels
  {
    seq(|order|, i requires 0 <= i < |order| => DrawFor(pixels, order[i]))
  }

  /** The fill style after drawing the entries in `order`, starting from `initial`. */
  function StyleAfter(pixels: map<string, string>, order: seq<string>, initial: string): string
    requires forall i :: 0 <= i < |order| ==> order[i] in pixels
  {
    if order == [] then initial else pixels[order[|order| - 1]]
  }

  /** `order` lists every key of `keys` exactly once. */
  ghost predicate Enumerates(order: seq<string>, keys: set<string>) {
    && (forall i, j :: 0 <= i < j < |order| ==> order[i] != order[j])
    && (forall k :: k in keys <==> k in order)
  }

  /**
   * Part way through a render: `order` lists the keys already drawn, once
   * each, and `remaining` holds exactly the keys still to draw.
   */
  ghost predicate Visited(order: seq<string>, remaining: set<string>, pixels: map<string, string>) {
    && remaining <= pixels.Keys
    && (forall i :: 0 <= i < |order| ==> order[i] in pixels && order[i] !in remaining)
    && (forall i, j :: 0 <= i < j < |order| ==> order[i] != order[j])
    && (forall k :: k in pixels.Keys ==> k in remaining || k in order)
    && |order| + |remaining| == |pixels|
  }

  /** Drawing one more remaining key keeps `Visited`. */
  lemma VisitedStep(order: seq<string>, remaining: set<string>, pixels: map<string, string>, key: string)
    requires Visited(order, remaining, pixels) && key in remaining
    ensures Visited(order + [key], remaining - {key}, pixels)
  {
  }

  /** Drawing one more key appends its fill and leaves its color as the fill style. */
  lemma DrawsForSnoc(pixels: map<string, string>, order: seq<string>, key: string, initial: string)
    requires forall i :: 0 <= i < |order| ==> order[i] in pixels
    requires key in pixels
    ensures DrawsFor(pixels, order + [key]) == DrawsFor(pixels, order) + [DrawFor(pixels, key)]
    ensures StyleAfter(pixels, order + [key], initial) == pixels[key]
  {
  }

  /** When nothing remains, the visited keys enumerate the map. */
  lemma VisitedDone(order: seq<string>, pixels: map<string, string>)
    requires Visited(order, {}, pixels)
    ensures Enumerates(order, pixels.Keys) && |order| == |pixels|
  {
  }

  /** A key of the map drawn by `RenderCanvas` for a cell is drawn on that cell's square. */
  lemma DrawForCell(pixels: map<string, string>, x: int, y: int)
    requires Key(x, y) in pixels
    ensures DrawFor(pixels, Key(x, y)) == Fill(PixelRect(Int(x), Int(y)), pixels[Key(x, y)])
  {
    KeyRoundTrip(x, y);
  }

  /**
   * `renderCanvas`: clear the whole surface, then fill one square per entry
   * of `pixels`. The entries are visited in an order this model leaves open
   * (JavaScript visits non-index keys in insertion order); `order` is that
   * order. The fill style is left at the color of the last entry drawn.
   */
  method RenderCanvas(ctx: RenderingContext, pixels: map<string, string>) returns (ghost order: seq<string>)
    modifies ctx
    ensures Enumerates(order, pixels.Keys)
    ensures |order| == |pixels|
    ensures ctx.ops == old(ctx.ops) + [Clear(CanvasRect)] + DrawsFor(pixels, order)
    ensures ctx.fillStyle == StyleAfter(pixels, order, old(ctx.fillStyle))
  {
    ctx.ops := ctx.ops + [Clear(CanvasRect)];
    ghost var start := ctx.ops;
    var remaining := pixels.Keys;
    order := [];
    while remaining != {}
      invariant Visited(order, remaining, pixels)
      invariant ctx.ops == start + DrawsFor(pixels, order)
      invariant ctx.fillStyle == StyleAfter(pixels, order, old(ctx.fillStyle))
      decreases |remaining|
    {
      var key :| key in remaining;
      var (x, y) := ParseKey(key);
      DrawPixel(ctx, x, y, pixels[key]);
      DrawsForSnoc(pixels, order, key, old(ctx.fillStyle));
      VisitedStep(order, remaining, pixels, key);
      order := order + [key];
      remaining := remaining - {key};
    }
    VisitedDone(order, pixels);
  }
}
