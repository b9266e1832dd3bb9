/** Master/stack and monocle geometry of `kum_workspace_arrange`. */
module Tiling {
  import opened Prelude

  datatype Box = Box(x: int, y: int, w: int, h: int)

  /** C's `/` on ints truncates toward zero. */
  function CDiv(a: int, b: int): int
    requires b > 0
  {
    if a >= 0 then a / b else -((-a) / b)
  }

  /** C's conversion of a floating value to int truncates toward zero. */
  function Trunc(r: real): int {
    if r >= 0.0 then r.Floor else -((-r).Floor)
  }

  function MasterWidth(area: Box, gap: int, ratio: real, n: nat): int {
    if n == 1 then area.w - gap * 2 else Trunc((area.w - gap * 3) as real * ratio)
  }

  /** Height of one stack slot; `n - 1` windows share the stack column. */
  function SlotHeight(area: Box, gap: int, n: nat): int
    requires n >= 2
  {
    CDiv(area.h - gap * n, n - 1)
  }

  /** Rectangle of the `i`-th of `n` tiled windows. */
  function TileBox(area: Box, gap: int, ratio: real, n: nat, i: nat): Box
    requires i < n
  {
    var masterW := MasterWidth(area, gap, ratio, n);
    if i == 0 then
      Box(area.x + gap, area.y + gap, masterW, area.h - gap * 2)
    else
      var slotH := SlotHeight(area, gap, n);
      Box(area.x + gap * 2 + masterW, area.y + gap + (i - 1) * (slotH + gap), area.w - gap * 3 - masterW, slotH)
  }

  function MonocleBox(area: Box, gap: int): Box {
    Box(area.x + gap, area.y + gap, area.w - gap * 2, area.h - gap * 2)
  }

  /** The room `n` tiled windows need. */
  predicate Roomy(area: Box, gap: int, n: nat) {
    if n == 1 then area.w >= 2 * gap && area.h >= 2 * gap
    else area.w >= 3 * gap && area.h >= gap * n
  }

  /** A drawable rectangle that stays clear of the area's edges by `gap`. */
  predicate Inside(b: Box, area: Box, gap: int) {
    && b.w >= 0 && b.h >= 0
    && area.x + gap <= b.x && b.x + b.w <= area.x + area.w - gap
    && area.y + gap <= b.y && b.y + b.h <= area.y + area.h - gap
  }

  /** Separated by at least `gap` horizontally or vertically. */
  predicate Apart(a: Box, b: Box, gap: int) {
    || a.x + a.w + gap <= b.x || b.x + b.w + gap <= a.x
    || a.y + a.h + gap <= b.y || b.y + b.h + gap <= a.y
  }

  ghost predicate AllInside(area: Box, gap: int, ratio: real, n: nat) {
    forall i :: 0 <= i < n ==> Inside(TileBox(area, gap, ratio, n, i), area, gap)
  }

  ghost predicate AllApart(area: Box, gap: int, ratio: real, n: nat) {
    forall i, j :: 0 <= i < j < n ==> Apart(TileBox(area, gap, ratio, n, i), TileBox(area, gap, ratio, n, j), gap)
  }

  lemma Scaled(a: real, ratio: real)
    requires a >= 0.0 && 0.0 <= ratio <= 1.0
    ensures 0.0 <= a * ratio <= a
  {
    assert a * (1.0 - ratio) >= 0.0;
  }

  lemma MasterBounds(avail: int, ratio: real)
    requires 0.0 <= ratio <= 1.0
    ensures avail >= 0 ==> 0 <= Trunc(avail as real * ratio) <= avail
    ensures avail < 0 ==> avail <= Trunc(avail as real * ratio) <= 0
  {
    var a := if avail >= 0 then avail as real else -(avail as real);
    var p := a * ratio;
    Scaled(a, ratio);
    assert avail >= 0 ==> avail as real * ratio == p;
    assert avail < 0 ==> avail as real * ratio == -p;
    assert 0 <= p.Floor && p.Floor as real <= a;
  }

  lemma SlotFacts(area: Box, gap: int, n: nat)
    requires n >= 2 && gap >= 0
    ensures var used := (n - 1) * SlotHeight(area, gap, n); var room := area.h - gap * n;
      && (room >= 0 ==> SlotHeight(area, gap, n) >= 0 && used <= room < used + (n - 1))
      && (room < 0 ==> SlotHeight(area, gap, n) <= 0)
  {
    var room := area.h - gap * n;
    DivBounds(if room >= 0 then room else -room, n - 1);
  }

  /** Bottom edge of the `i`-th window, counted from the top of the area. */
  lemma SlotBottoms(h: int, gap: int, n: nat, i: nat)
    requires 1 <= i < n && h + gap >= 0
    ensures 0 <= (i - 1) * (h + gap)
    ensures (i - 1) * (h + gap) + h <= (n - 2) * (h + gap) + h == (n - 1) * h + gap * n - 2 * gap
  {
    MulMono(i - 1, n - 2, h + gap);
  }

  /** Vertical extent of the `i`-th window of a stack that has room. */
  lemma StackRoom(area: Box, gap: int, n: nat, i: nat)
    requires 1 <= i < n && gap >= 0 && Roomy(area, gap, n)
    ensures SlotHeight(area, gap, n) >= 0
    ensures 0 <= (i - 1) * (SlotHeight(area, gap, n) + gap) <= area.h - 2 * gap - SlotHeight(area, gap, n)
  {
    SlotFacts(area, gap, n);
    SlotBottoms(SlotHeight(area, gap, n), gap, n, i);
  }

  /** Horizontal extent of the master column and of an area that has room. */
  lemma MasterRoom(area: Box, gap: int, ratio: real, n: nat)
    requires n >= 2 && gap >= 0 && 0.0 <= ratio <= 1.0 && Roomy(area, gap, n)
    ensures 0 <= MasterWidth(area, gap, ratio, n) <= area.w - gap * 3
    ensures area.h >= gap * 2
  {
    MasterBounds(area.w - gap * 3, ratio);
    MulMono(2, n, gap);
  }

  lemma RoomyFitsAt(area: Box, gap: int, ratio: real, n: nat, i: nat)
    requires i < n && n >= 2 && gap >= 0 && 0.0 <= ratio <= 1.0 && Roomy(area, gap, n)
    ensures Inside(TileBox(area, gap, ratio, n, i), area, gap)
  {
    hide Roomy, MasterWidth, SlotHeight;
    MasterRoom(area, gap, ratio, n);
    if i > 0 {
      StackRoom(area, gap, n, i);
    }
  }

  lemma RoomyFits(area: Box, gap: int, ratio: real, n: nat)
    requires n >= 2 && gap >= 0 && 0.0 <= ratio <= 1.0 && Roomy(area, gap, n)
    ensures AllInside(area, gap, ratio, n)
  {
    forall i | 0 <= i < n
      ensures Inside(TileBox(area, gap, ratio, n, i), area, gap)
    {
      RoomyFitsAt(area, gap, ratio, n, i);
    }
  }

  lemma FittingIsRoomy(area: Box, gap: int, ratio: real, n: nat)
    requires n >= 2 && gap >= 0 && 0.0 <= ratio <= 1.0 && AllInside(area, gap, ratio, n)
    ensures Roomy(area, gap, n)
  {
    SlotFacts(area, gap, n);
    var h := SlotHeight(area, gap, n);
    assert Inside(TileBox(area, gap, ratio, n, 0), area, gap);
    assert Inside(TileBox(area, gap, ratio, n, n - 1), area, gap);
    SlotBottoms(h, gap, n, n - 1);
    MulMono(0, h, n - 1);
  }

  /** Tiled rectangles are all drawable and clear of the edges exactly when the area is large enough. */
  lemma TilesFit(area: Box, gap: int, ratio: real, n: nat)
    requires n >= 1 && gap >= 0 && 0.0 <= ratio <= 1.0
    ensures AllInside(area, gap, ratio, n) <==> Roomy(area, gap, n)
  {
    if n == 1 {
      assert AllInside(area, gap, ratio, n) <==> Inside(TileBox(area, gap, ratio, n, 0), area, gap);
    } else {
      MasterBounds(area.w - gap * 3, ratio);
      SlotFacts(area, gap, n);
      if Roomy(area, gap, n) {
        RoomyFits(area, gap, ratio, n);
      }
      if AllInside(area, gap, ratio, n) {
        FittingIsRoomy(area, gap, ratio, n);
      }
    }
  }

  lemma TilesApartAt(area: Box, gap: int, ratio: real, n: nat, i: nat, j: nat)
    requires gap >= 0 && 0.0 <= ratio <= 1.0 && i < j < n && Roomy(area, gap, n)
    ensures Apart(TileBox(area, gap, ratio, n, i), TileBox(area, gap, ratio, n, j), gap)
  {
    if i > 0 {
      SlotFacts(area, gap, n);
      var h := SlotHeight(area, gap, n);
      MulMono(i, j - 1, h + gap);
      assert i * (h + gap) == (i - 1) * (h + gap) + h + gap;
    }
  }

  /** In a large enough area any two tiled rectangles keep a full gap between them. */
  lemma TilesApart(area: Box, gap: int, ratio: real, n: nat)
    requires gap >= 0 && 0.0 <= ratio <= 1.0 && Roomy(area, gap, n)
    ensures AllApart(area, gap, ratio, n)
  {
    forall i, j | 0 <= i < j < n
      ensures Apart(TileBox(area, gap, ratio, n, i), TileBox(area, gap, ratio, n, j), gap)
    {
      TilesApartAt(area, gap, ratio, n, i, j);
    }
  }

  /** No pixel column is lost, and the stack wastes fewer pixel rows than it has windows. */
  lemma TilesFill(area: Box, gap: int, ratio: real, n: nat)
    requires n >= 1 && gap >= 0 && Roomy(area, gap, n)
    ensures n == 1 ==> gap + TileBox(area, gap, ratio, n, 0).w + gap == area.w
    ensures forall i :: 1 <= i < n ==>
      gap + TileBox(area, gap, ratio, n, 0).w + gap + TileBox(area, gap, ratio, n, i).w + gap == area.w
    ensures n >= 2 ==>
      var last := TileBox(area, gap, ratio, n, n - 1);
      0 <= area.y + area.h - gap - (last.y + last.h) < n - 1
  {
    if n >= 2 {
      SlotFacts(area, gap, n);
      var h := SlotHeight(area, gap, n);
      assert (n - 2) * (h + gap) + h == (n - 1) * h + gap * n - 2 * gap;
    }
  }

  /** The master's width is `ratio` of the columns' width, rounded down to a pixel. */
  lemma MasterShare(area: Box, gap: int, ratio: real, n: nat)
    requires n >= 2 && 0.0 <= ratio <= 1.0 && area.w >= gap * 3
    ensures var w := TileBox(area, gap, ratio, n, 0).w; var columns := area.w - gap * 3;
      w as real <= columns as real * ratio < w as real + 1.0
  {
    Scaled((area.w - gap * 3) as real, ratio);
  }

  /** A larger ratio never makes the master narrower. */
  lemma MasterGrows(area: Box, gap: int, ratio: real, more: real, n: nat)
    requires n >= 2 && 0.0 <= ratio <= more <= 1.0 && area.w >= gap * 3
    ensures TileBox(area, gap, ratio, n, 0).w <= TileBox(area, gap, more, n, 0).w
  {
    var a := (area.w - gap * 3) as real;
    MasterShare(area, gap, ratio, n);
    MasterShare(area, gap, more, n);
    assert a * (more - ratio) >= 0.0 && a * (more - ratio) == a * more - a * ratio;
  }

  lemma StackedBelow(area: Box, gap: int, ratio: real, n: nat, i: nat)
    requires 2 <= i < n
    ensures var b := TileBox(area, gap, ratio, n, i); var above := TileBox(area, gap, ratio, n, i - 1);
      above.y + above.h + gap == b.y
  {
    var step := SlotHeight(area, gap, n) + gap;
    hide MasterWidth, SlotHeight;
    assert (i - 1) * step == (i - 2) * step + step;
  }

  /** Where the rectangles are: the master at the left over the whole height, then one gap, then the stack
      from top to bottom in windows of equal size, each one gap below the one before. */
  lemma TilesInPlace(area: Box, gap: int, ratio: real, n: nat)
    requires n >= 1
    ensures var master := TileBox(area, gap, ratio, n, 0);
      && master.x == area.x + gap && master.y == area.y + gap && gap + master.h + gap == area.h
      && (forall i :: 1 <= i < n ==> master.x + master.w + gap == TileBox(area, gap, ratio, n, i).x)
    ensures forall i :: 1 <= i < n ==>
      && TileBox(area, gap, ratio, n, i).w == TileBox(area, gap, ratio, n, 1).w
      && TileBox(area, gap, ratio, n, i).h == TileBox(area, gap, ratio, n, 1).h
    ensures n >= 2 ==> TileBox(area, gap, ratio, n, 1).y == area.y + gap
    ensures forall i :: 2 <= i < n ==>
      var above := TileBox(area, gap, ratio, n, i - 1); above.y + above.h + gap == TileBox(area, gap, ratio, n, i).y
  {
    forall i | 2 <= i < n
      ensures var above := TileBox(area, gap, ratio, n, i - 1);
        above.y + above.h + gap == TileBox(area, gap, ratio, n, i).y
    {
      StackedBelow(area, gap, ratio, n, i);
    }
    hide MasterWidth, SlotHeight;
  }

  /** The two columns and three gaps make up the width of any area. */
  lemma TilesSpan(area: Box, gap: int, ratio: real, n: nat)
    requires n >= 2
    ensures forall i :: 1 <= i < n ==>
      gap + TileBox(area, gap, ratio, n, 0).w + gap + TileBox(area, gap, ratio, n, i).w + gap == area.w
  {
    hide MasterWidth, SlotHeight;
  }

  /** The monocle rectangle leaves exactly one gap on every side. */
  lemma MonocleFits(area: Box, gap: int)
    ensures var b := MonocleBox(area, gap);
      && (Inside(b, area, gap) <==> area.w >= 2 * gap && area.h >= 2 * gap)
      && b.x == area.x + gap && b.x + b.w + gap == area.x + area.w
      && b.y == area.y + gap && b.y + b.h + gap == area.y + area.h
  {
  }
}
