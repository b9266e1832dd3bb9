/** Where windows end up: laying out, swapping workspaces between outputs, moving windows. */
module Placement {
  import opened Prelude
  import opened Tiling
  import opened Compositor

  /** Every managed window of a workspace has exactly the rectangle its layout gives it on `area`. */
  predicate LaidOut(wins: Windows, sp: Space, area: Box, gap: int, ratio: real)
    requires forall id :: id in sp.list ==> id in wins
  {
    sp.layout == Floating ||
    (var ids := Tiled(wins, sp.list);
     forall i :: 0 <= i < |ids| ==> wins[ids[i]].box == Boxes(sp.layout, area, gap, ratio, |ids|)[i])
  }

  ghost predicate Listed(wins: Windows, sp: Space) {
    NoDup(sp.list) && forall id :: id in sp.list ==> id in wins
  }

  /** Two window tables agree on which windows of a list are managed. */
  ghost predicate SameManaged(a: Windows, b: Windows, ids: seq<Id>) {
    forall id :: id in ids ==>
      id in a && id in b && a[id].mapped == b[id].mapped && a[id].floating == b[id].floating
  }

  lemma {:induction false} TiledSame(a: Windows, b: Windows, ids: seq<Id>)
    requires SameManaged(a, b, ids)
    ensures Tiled(a, ids) == Tiled(b, ids)
  {
    if |ids| > 0 {
      assert ids[0] in ids;
      TiledSame(a, b, ids[1..]);
    }
  }

  /** The windows a layout manages come in list order. */
  lemma {:induction false} TiledInOrder(wins: Windows, ids: seq<Id>)
    requires NoDup(ids) && forall id :: id in ids ==> id in wins
    ensures var r := Tiled(wins, ids);
      forall i, j :: 0 <= i < j < |r| ==> IndexOf(ids, r[i]) < IndexOf(ids, r[j])
  {
    if |ids| > 0 {
      var rest := ids[1..];
      assert ids == [ids[0]] + rest;
      TiledInOrder(wins, rest);
      var r := Tiled(wins, ids);
      forall i, j | 0 <= i < j < |r|
        ensures IndexOf(ids, r[i]) < IndexOf(ids, r[j])
      {
        var d := |r| - |Tiled(wins, rest)|;
        assert r[j] == Tiled(wins, rest)[j - d] && r[j] in rest && r[j] != ids[0];
        if i >= d {
          assert r[i] == Tiled(wins, rest)[i - d] && r[i] in rest && r[i] != ids[0];
        }
      }
    }
  }

  /** Arranging establishes the layout. */
  lemma ArrangedIsLaidOut(wins: Windows, sp: Space, area: Box, gap: int, ratio: real)
    requires Listed(wins, sp)
    ensures LaidOut(Arranged(wins, sp, area, gap, ratio), sp, area, gap, ratio)
  {
    TiledSame(wins, Arranged(wins, sp, area, gap, ratio), sp.list);
  }

  /** A workspace is laid out exactly when arranging it again would change nothing. */
  lemma LaidOutIsFixed(wins: Windows, sp: Space, area: Box, gap: int, ratio: real)
    requires Listed(wins, sp)
    ensures LaidOut(wins, sp, area, gap, ratio) <==> Arranged(wins, sp, area, gap, ratio) == wins
  {
    ArrangedIsLaidOut(wins, sp, area, gap, ratio);
    if LaidOut(wins, sp, area, gap, ratio) && sp.layout != Floating {
      var ids := Tiled(wins, sp.list);
      var boxes := Boxes(sp.layout, area, gap, ratio, |ids|);
      var r := Place(wins, ids, boxes);
      forall id | id in wins
        ensures r[id] == wins[id]
      {
        if id in ids {
          var i :| 0 <= i < |ids| && ids[i] == id;
          assert r[ids[i]] == wins[ids[i]].(box := boxes[i]);
        }
      }
      assert r == wins;
    }
  }

  /** The layout of a workspace depends only on its own windows. */
  lemma LaidOutLocal(a: Windows, b: Windows, sp: Space, area: Box, gap: int, ratio: real)
    requires Listed(a, sp) && SameManaged(a, b, sp.list) && LaidOut(a, sp, area, gap, ratio)
    requires forall id :: id in sp.list ==> a[id].box == b[id].box
    ensures LaidOut(b, sp, area, gap, ratio)
  {
    TiledSame(a, b, sp.list);
  }

  /** The rectangles of a layout move along with the area. */
  lemma BoxesShift(layout: Layout, from: Box, to: Box, gap: int, ratio: real, n: nat, i: nat)
    requires from.w == to.w && from.h == to.h && i < n
    ensures Boxes(layout, to, gap, ratio, n)[i]
         == Moved(Boxes(layout, from, gap, ratio, n)[i], to.x - from.x, to.y - from.y)
  {
    if layout == Tile {
      assert MasterWidth(from, gap, ratio, n) == MasterWidth(to, gap, ratio, n);
      assert n >= 2 ==> SlotHeight(from, gap, n) == SlotHeight(to, gap, n);
      assert TileBox(to, gap, ratio, n, i) == Moved(TileBox(from, gap, ratio, n, i), to.x - from.x, to.y - from.y);
    }
  }

  /** Shifting a laid-out workspace from one area to another of equal size lays it out there. */
  lemma LaidOutShifted(a: Windows, b: Windows, sp: Space, from: Box, to: Box, gap: int, ratio: real)
    requires Listed(a, sp) && SameManaged(a, b, sp.list) && LaidOut(a, sp, from, gap, ratio)
    requires from.w == to.w && from.h == to.h
    requires forall id :: id in sp.list ==> b[id].box == Moved(a[id].box, to.x - from.x, to.y - from.y)
    ensures LaidOut(b, sp, to, gap, ratio)
  {
    TiledSame(a, b, sp.list);
    var ids := Tiled(a, sp.list);
    forall i | sp.layout != Floating && 0 <= i < |ids|
      ensures b[ids[i]].box == Boxes(sp.layout, to, gap, ratio, |ids|)[i]
    {
      BoxesShift(sp.layout, from, to, gap, ratio, |ids|, i);
      assert ids[i] in ids;
    }
  }

  /** Translating changes no window's size and no distance between two windows of the workspace, leaves
      all other windows alone, and is undone by translating back. */
  lemma TranslateRigid(wins: Windows, w: WsIx, dx: int, dy: int)
    ensures Translate(Translate(wins, w, dx, dy), w, -dx, -dy) == wins
    ensures var r := Translate(wins, w, dx, dy);
      && (forall a, b :: a in wins && b in wins && wins[a].ws == w && wins[b].ws == w ==>
            r[a].box.x - r[b].box.x == wins[a].box.x - wins[b].box.x &&
            r[a].box.y - r[b].box.y == wins[a].box.y - wins[b].box.y)
      && (forall a :: a in wins ==> r[a].box.w == wins[a].box.w && r[a].box.h == wins[a].box.h)
      && (forall a :: a in wins && wins[a].ws != w ==> r[a] == wins[a])
  {
    var r := Translate(wins, w, dx, dy);
    var back := Translate(r, w, -dx, -dy);
    assert forall a :: a in wins ==> back[a] == wins[a];
  }

  // ---------------------------------------------------------------- tiling on screen

  /** Windows tiled in a large enough area lie inside it, a full gap away from its edges and from each other. */
  lemma LaidOutTilesFit(wins: Windows, sp: Space, area: Box, gap: int, ratio: real)
    requires Listed(wins, sp) && sp.layout == Tile && LaidOut(wins, sp, area, gap, ratio)
    requires gap >= 0 && 0.0 <= ratio <= 1.0
    requires var n := |Tiled(wins, sp.list)|; n >= 1 && Roomy(area, gap, n)
    ensures var ids := Tiled(wins, sp.list);
      && (forall i :: 0 <= i < |ids| ==> Inside(wins[ids[i]].box, area, gap))
      && (forall i, j :: 0 <= i < j < |ids| ==> Apart(wins[ids[i]].box, wins[ids[j]].box, gap))
  {
    var ids := Tiled(wins, sp.list);
    var n := |ids|;
    TilesFit(area, gap, ratio, n);
    forall i | 0 <= i < n
      ensures wins[ids[i]].box == TileBox(area, gap, ratio, n, i) && Inside(wins[ids[i]].box, area, gap)
    {
      assert Boxes(Tile, area, gap, ratio, n)[i] == TileBox(area, gap, ratio, n, i);
    }
    TilesApart(area, gap, ratio, n);
  }

  /** The windows of a laid-out tiled workspace: the first in the list is the master, left of all others
      and with its share of the width; the others are stacked from top to bottom in list order. */
  lemma LaidOutInPlace(wins: Windows, sp: Space, area: Box, gap: int, ratio: real)
    requires Listed(wins, sp) && sp.layout == Tile && LaidOut(wins, sp, area, gap, ratio)
    requires |Tiled(wins, sp.list)| >= 2 && 0.0 <= ratio <= 1.0 && area.w >= gap * 3
    ensures var ids := Tiled(wins, sp.list); var master := wins[ids[0]].box; var columns := area.w - gap * 3;
      && master.x == area.x + gap && master.y == area.y + gap && gap + master.h + gap == area.h
      && master.w as real <= columns as real * ratio < master.w as real + 1.0
      && (forall i :: 1 <= i < |ids| ==> master.x + master.w + gap == wins[ids[i]].box.x)
      && (forall i :: 1 <= i < |ids| ==> gap + master.w + gap + wins[ids[i]].box.w + gap == area.w)
      && wins[ids[1]].box.y == area.y + gap
      && (forall i :: 2 <= i < |ids| ==> wins[ids[i - 1]].box.y + wins[ids[i - 1]].box.h + gap == wins[ids[i]].box.y)
  {
    var ids := Tiled(wins, sp.list);
    var n := |ids|;
    forall i | 0 <= i < n
      ensures wins[ids[i]].box == TileBox(area, gap, ratio, n, i)
    {
      assert Boxes(Tile, area, gap, ratio, n)[i] == TileBox(area, gap, ratio, n, i);
    }
    TilesInPlace(area, gap, ratio, n);
    MasterShare(area, gap, ratio, n);
    TilesSpan(area, gap, ratio, n);
    hide TileBox, LaidOut;
  }

  /** On a monocle workspace every managed window has the whole area but for one gap on every side. */
  lemma LaidOutMonocle(wins: Windows, sp: Space, area: Box, gap: int, ratio: real, id: Id)
    requires Listed(wins, sp) && sp.layout == Monocle && LaidOut(wins, sp, area, gap, ratio)
    requires id in sp.list && wins[id].mapped && !wins[id].floating
    ensures var b := wins[id].box;
      && b.x == area.x + gap && b.x + b.w + gap == area.x + area.w
      && b.y == area.y + gap && b.y + b.h + gap == area.y + area.h
  {
    var ids := Tiled(wins, sp.list);
    var i :| 0 <= i < |ids| && ids[i] == id;
    MonocleFits(area, gap);
    assert Boxes(Monocle, area, gap, ratio, |ids|)[i] == MonocleBox(area, gap);
  }

  // ---------------------------------------------------------------- switching and swapping

  ghost predicate SwitchMoves(s: State, k: int, index: int) {
    0 <= k < |s.outputs| && 0 <= index < COUNT && s.outputs[k].active != index
  }

  /** What a switch does to the outputs and the windows, whatever becomes of the focus. */
  ghost predicate Switched(s: State, r: State, k: int, index: int)
    requires |s.spaces| == COUNT && SwitchMoves(s, k, index)
  {
    && r.outputs == SwapOutputs(s.outputs, k, index)
    && |r.spaces| == COUNT
    && (forall w :: 0 <= w < COUNT ==> r.spaces[w].list == s.spaces[w].list && r.spaces[w].layout == s.spaces[w].layout)
    && r.gap == s.gap && r.ratio == s.ratio
    && r.wins.Keys == s.wins.Keys
    && forall id :: id in s.wins ==>
         && r.wins[id].box == SwapWindows(s, k, index)[id].box
         && r.wins[id].ws == s.wins[id].ws && r.wins[id].kind == s.wins[id].kind
         && r.wins[id].mapped == s.wins[id].mapped && r.wins[id].floating == s.wins[id].floating
  }

  lemma SwitchEffect(s: State, k: int, index: int)
    requires Wf(s) && SwitchMoves(s, k, index)
    ensures Switched(s, Switch(s, k, index), k, index)
    ensures Exclusive(s.outputs, s.spaces) ==>
      Exclusive(Switch(s, k, index).outputs, Switch(s, k, index).spaces)
  {
    hide Linked, Surfaced, FocusLive, Exclusive, SwapWindows, SwapOutputs;
  }

  /** The origin of the output that shows a workspace. */
  function Origin(outputs: seq<Output>, w: WsIx): Box
    requires OutputFor(outputs, w) >= 0
  {
    outputs[OutputFor(outputs, w)].area
  }

  /** Same size, and the same offset from the origin of the output showing the window's workspace. */
  predicate SameOffset(a: Box, b: Box, from: Box, to: Box) {
    b.w == a.w && b.h == a.h && b.x - to.x == a.x - from.x && b.y - to.y == a.y - from.y
  }

  lemma SwapAreas(outputs: seq<Output>, k: nat, index: WsIx)
    requires k < |outputs| && outputs[k].active != index
    ensures forall i :: 0 <= i < |outputs| ==> SwapOutputs(outputs, k, index)[i].area == outputs[i].area
  {
  }

  /** Where the exchange of two workspaces leaves one window. */
  lemma SwapBox(s: State, k: nat, index: WsIx, id: Id)
    requires k < |s.outputs| && s.outputs[k].active != index && id in s.wins && OutputFor(s.outputs, index) >= 0
    ensures var w := s.wins[id].ws; var a := s.wins[id].box; var b := SwapWindows(s, k, index)[id].box;
      var at := s.outputs[k].area; var other := Origin(s.outputs, index);
      if w == index then SameOffset(a, b, other, at)
      else if w == s.outputs[k].active then SameOffset(a, b, at, other)
      else b == a
  {
    assert OtherShowing(s.outputs, k, index) == OutputFor(s.outputs, index);
  }

  /** The window keeps its place relative to the output showing its workspace, or stays put if hidden. */
  predicate KeepsOffset(s: State, r: State, id: Id)
    requires id in s.wins && id in r.wins
  {
    var w := s.wins[id].ws;
    if OutputFor(s.outputs, w) < 0 then r.wins[id].box == s.wins[id].box
    else
      && OutputFor(r.outputs, w) >= 0
      && SameOffset(s.wins[id].box, r.wins[id].box, Origin(s.outputs, w), Origin(r.outputs, w))
  }

  /** Which output shows a workspace after two outputs have exchanged theirs. */
  lemma SwappedOutputFor(outputs: seq<Output>, spaces: seq<Space>, k: nat, index: WsIx, w: WsIx)
    requires k < |outputs| && outputs[k].active != index && Exclusive(outputs, spaces)
    requires OutputFor(outputs, index) >= 0 && OutputFor(outputs, w) >= 0
    ensures OutputFor(SwapOutputs(outputs, k, index), w) ==
      if w == index then k else if w == outputs[k].active then OutputFor(outputs, index) else OutputFor(outputs, w)
  {
    var o := OutputFor(outputs, index);
    var r := SwapOutputs(outputs, k, index);
    var v := if w == index then k else if w == outputs[k].active then o else OutputFor(outputs, w);
    assert forall i :: 0 <= i < |r| ==>
      r[i].active == if i == k then index else if i == o then outputs[k].active else outputs[i].active;
    assert r[v].active == w;
    forall i | 0 <= i < |r| && r[i].active == w
      ensures i == v
    {
    }
  }

  lemma SwappedOffset(s: State, r: State, k: nat, index: WsIx, id: Id)
    requires |s.spaces| == COUNT && Exclusive(s.outputs, s.spaces) && SwitchMoves(s, k, index) && id in s.wins
    requires OutputFor(s.outputs, index) >= 0 && Switched(s, r, k, index)
    ensures KeepsOffset(s, r, id)
  {
    SwapBox(s, k, index, id);
    SwapAreas(s.outputs, k, index);
    var w := s.wins[id].ws;
    if OutputFor(s.outputs, w) >= 0 {
      SwappedOutputFor(s.outputs, s.spaces, k, index, w);
    } else {
      assert w != index && w != s.outputs[k].active;
    }
  }

  /** A swap keeps every visible window where it was relative to the output showing it, and moves no
      hidden window. */
  lemma SwapKeepsOffsets(s: State, k: int, index: int)
    requires Wf(s) && Exclusive(s.outputs, s.spaces) && SwitchMoves(s, k, index)
    requires OutputFor(s.outputs, index) >= 0
    ensures Switch(s, k, index).wins.Keys == s.wins.Keys
    ensures forall id :: id in s.wins ==> KeepsOffset(s, Switch(s, k, index), id)
  {
    var r := Switch(s, k, index);
    SwitchEffect(s, k, index);
    hide Switch, Linked, Surfaced, FocusLive, Exclusive, SwapWindows, SwapOutputs;
    forall id | id in s.wins
      ensures KeepsOffset(s, r, id)
    {
      SwappedOffset(s, r, k, index, id);
    }
  }

  /** Switching to a hidden workspace moves no window at all. */
  lemma ShowMovesNothing(s: State, k: int, index: int)
    requires Wf(s) && SwitchMoves(s, k, index) && OutputFor(s.outputs, index) < 0
    ensures forall id :: id in s.wins ==> Switch(s, k, index).wins[id].box == s.wins[id].box
  {
    SwitchEffect(s, k, index);
  }

  // ---------------------------------------------------------------- there and back again

  ghost predicate SameActives(a: seq<Output>, b: seq<Output>) {
    |a| == |b| && forall i :: 0 <= i < |a| ==> a[i].active == b[i].active && a[i].area == b[i].area
  }

  lemma SwapBackOutputs(outputs: seq<Output>, spaces: seq<Space>, k: nat, index: WsIx)
    requires k < |outputs| && outputs[k].active != index && Exclusive(outputs, spaces)
    ensures var once := SwapOutputs(outputs, k, index);
      && once[k].active == index
      && OutputFor(once, outputs[k].active) == OutputFor(outputs, index)
      && SameActives(outputs, SwapOutputs(once, k, outputs[k].active))
  {
    var prev := outputs[k].active;
    var o := OutputFor(outputs, index);
    var once := SwapOutputs(outputs, k, index);
    assert forall i :: 0 <= i < |once| ==>
      once[i].active == if i == k then index else if i == o then prev else outputs[i].active;
    if o >= 0 {
      SwappedOutputFor(outputs, spaces, k, index, prev);
    } else {
      assert OutputFor(once, prev) < 0;
    }
  }

  lemma SameActivesShow(a: seq<Output>, b: seq<Output>, w: WsIx)
    requires SameActives(a, b)
    ensures OutputFor(a, w) == OutputFor(b, w)
  {
    var i := OutputFor(a, w);
    var j := OutputFor(b, w);
    assert i >= 0 ==> b[i].active == w;
    assert j >= 0 ==> a[j].active == w;
  }

  lemma NoSwap(s: State, k: nat, index: WsIx)
    requires k < |s.outputs| && s.outputs[k].active != index && OutputFor(s.outputs, index) < 0
    ensures SwapWindows(s, k, index) == s.wins
  {
  }

  lemma SwapBoxBack(s: State, a: State, k: nat, index: WsIx, id: Id)
    requires |s.spaces| == COUNT && SwitchMoves(s, k, index) && Exclusive(s.outputs, s.spaces)
    requires Switched(s, a, k, index) && id in s.wins
    ensures a.outputs[k].active != s.outputs[k].active
    ensures SwapWindows(a, k, s.outputs[k].active)[id].box == s.wins[id].box
  {
    hide SwapWindows, Exclusive;
    SwapBackOutputs(s.outputs, s.spaces, k, index);
    SwapAreas(s.outputs, k, index);
    hide SwapOutputs;
    if OutputFor(s.outputs, index) >= 0 {
      SwapBox(s, k, index, id);
      SwapBox(a, k, s.outputs[k].active, id);
    } else {
      NoSwap(s, k, index);
      NoSwap(a, k, s.outputs[k].active);
    }
  }

  /** Exclusive displays leave no freedom in the enabled flags. */
  lemma SameActivesSpaces(s: State, r: State)
    requires Exclusive(s.outputs, s.spaces) && Exclusive(r.outputs, r.spaces) && SameActives(s.outputs, r.outputs)
    requires forall w :: 0 <= w < COUNT ==> r.spaces[w].list == s.spaces[w].list && r.spaces[w].layout == s.spaces[w].layout
    ensures r.spaces == s.spaces
  {
    forall w | 0 <= w < COUNT
      ensures r.spaces[w] == s.spaces[w]
    {
      SameActivesShow(s.outputs, r.outputs, w);
    }
  }

  lemma SwitchedBack(s: State, a: State, r: State, k: int, index: int)
    requires Wf(s) && SwitchMoves(s, k, index) && Switched(s, a, k, index)
    requires SwitchMoves(a, k, s.outputs[k].active) && Switched(a, r, k, s.outputs[k].active)
    requires Exclusive(s.outputs, s.spaces) && Exclusive(r.outputs, r.spaces)
    ensures SameActives(s.outputs, r.outputs) && r.spaces == s.spaces
    ensures r.wins.Keys == s.wins.Keys && forall id :: id in s.wins ==> r.wins[id].box == s.wins[id].box
  {
    SwapBackOutputs(s.outputs, s.spaces, k, index);
    SameActivesSpaces(s, r);
    forall id | id in s.wins
      ensures r.wins[id].box == s.wins[id].box
    {
      SwapBoxBack(s, a, k, index, id);
    }
  }

  /** Switching to a workspace and back restores every output's active workspace, every workspace's
      enabled flag and every window's rectangle, whether or not the first switch was a swap. */
  lemma SwitchBack(s: State, k: int, index: int)
    requires Wf(s) && Exclusive(s.outputs, s.spaces) && SwitchMoves(s, k, index)
    ensures var r := Switch(Switch(s, k, index), k, s.outputs[k].active);
      && SameActives(s.outputs, r.outputs) && r.spaces == s.spaces
      && r.wins.Keys == s.wins.Keys && forall id :: id in s.wins ==> r.wins[id].box == s.wins[id].box
  {
    hide Exclusive, SwapWindows;
    var a := Switch(s, k, index);
    SwitchEffect(s, k, index);
    SwapBackOutputs(s.outputs, s.spaces, k, index);
    SwitchEffect(a, k, s.outputs[k].active);
    SwitchedBack(s, a, Switch(a, k, s.outputs[k].active), k, index);
  }

  /** After a switch output `k` shows `index` and remembers what it showed; an output that showed `index`
      shows and remembers the reverse; no other output changes. */
  lemma SwitchOutputs(s: State, k: int, index: int)
    requires Wf(s) && SwitchMoves(s, k, index)
    ensures var r := Switch(s, k, index); var was := s.outputs[k].active; var o := OutputFor(s.outputs, index);
      && |r.outputs| == |s.outputs|
      && r.outputs[k] == Output(s.outputs[k].area, index, was)
      && (o >= 0 ==> r.outputs[o] == Output(s.outputs[o].area, was, index))
      && forall i :: 0 <= i < |s.outputs| && i != k && i != o ==> r.outputs[i] == s.outputs[i]
  {
    SwitchEffect(s, k, index);
    hide Wf, Tame, Switch, OutputFor;
  }

  /** A workspace's key shows that workspace, or, if it is shown already, the one shown before. */
  lemma KeyShows(s: State, k: int, index: WsIx)
    requires Wf(s) && 0 <= k < |s.outputs|
    ensures var was := s.outputs[k]; var r := KeySwitch(s, k, index);
      && |r.outputs| == |s.outputs|
      && (was.active != index ==> r.outputs[k] == Output(was.area, index, was.active))
      && (was.active == index != was.previous ==> r.outputs[k] == Output(was.area, was.previous, index))
      && (was.active == index == was.previous ==> r == s)
  {
    var to := if s.outputs[k].active == index then s.outputs[k].previous else index;
    if s.outputs[k].active != to {
      SwitchOutputs(s, k, to);
    }
    hide Wf, Tame;
  }

  /** Pressing the key of a workspace that is not active shows it, and pressing it again brings
      everything back on screen. */
  lemma PressTwice(s: State, k: int, index: WsIx)
    requires Wf(s) && Exclusive(s.outputs, s.spaces) && SwitchMoves(s, k, index)
    ensures var once := KeySwitch(s, k, index);
      |once.outputs| == |s.outputs| && once.outputs[k].active == index && once.outputs[k].previous == s.outputs[k].active
    ensures var r := KeySwitch(KeySwitch(s, k, index), k, index);
      && SameActives(s.outputs, r.outputs)
      && forall id :: id in s.wins ==> id in r.wins && r.wins[id].box == s.wins[id].box
  {
    KeyShows(s, k, index);
    SwitchBack(s, k, index);
    hide Wf, Exclusive, Tame, Switch;
  }

  // ---------------------------------------------------------------- swapping keeps layouts exact

  lemma SwapLayout(s: State, r: State, k: nat, index: WsIx, w: WsIx, from: Box, to: Box)
    requires Wf(s) && SwitchMoves(s, k, index) && OutputFor(s.outputs, index) >= 0 && Switched(s, r, k, index)
    requires w == index || w == s.outputs[k].active
    requires from == (if w == index then Origin(s.outputs, index) else s.outputs[k].area)
    requires to == (if w == index then s.outputs[k].area else Origin(s.outputs, index))
    requires from.w == to.w && from.h == to.h && LaidOut(s.wins, s.spaces[w], from, s.gap, s.ratio)
    ensures LaidOut(r.wins, r.spaces[w], to, r.gap, r.ratio)
  {
    hide SwapWindows, SwapOutputs, FocusLive, Surfaced;
    var sp := s.spaces[w];
    forall id | id in sp.list
      ensures r.wins[id].box == Moved(s.wins[id].box, to.x - from.x, to.y - from.y)
    {
      SwapBox(s, k, index, id);
    }
    LaidOutShifted(s.wins, r.wins, sp, from, to, s.gap, s.ratio);
  }

  /** If two outputs of equal size show laid-out workspaces, then after a swap arranging either one on
      its new output would change nothing. */
  lemma SwapKeepsLayout(s: State, k: int, index: int)
    requires Wf(s) && Exclusive(s.outputs, s.spaces) && SwitchMoves(s, k, index) && OutputFor(s.outputs, index) >= 0
    requires var at := s.outputs[k].area; var other := Origin(s.outputs, index);
      && at.w == other.w && at.h == other.h
      && LaidOut(s.wins, s.spaces[s.outputs[k].active], at, s.gap, s.ratio)
      && LaidOut(s.wins, s.spaces[index], other, s.gap, s.ratio)
    ensures var r := Switch(s, k, index); var prev := s.outputs[k].active; var o := OutputFor(s.outputs, index);
      && r.outputs[k].active == index && r.outputs[o].active == prev
      && Arranged(r.wins, r.spaces[index], r.outputs[k].area, r.gap, r.ratio) == r.wins
      && Arranged(r.wins, r.spaces[prev], r.outputs[o].area, r.gap, r.ratio) == r.wins
  {
    hide Exclusive, SwapWindows, Switch;
    var r := Switch(s, k, index);
    var prev := s.outputs[k].active;
    var o := OutputFor(s.outputs, index);
    SwitchEffect(s, k, index);
    SwapAreas(s.outputs, k, index);
    SwapLayout(s, r, k, index, index, s.outputs[o].area, s.outputs[k].area);
    SwapLayout(s, r, k, index, prev, s.outputs[k].area, s.outputs[o].area);
    LaidOutIsFixed(r.wins, r.spaces[index], r.outputs[k].area, r.gap, r.ratio);
    LaidOutIsFixed(r.wins, r.spaces[prev], r.outputs[o].area, r.gap, r.ratio);
  }

  // ---------------------------------------------------------------- moving a window

  /** Tidying lays the workspace out where it is shown and touches nothing else. */
  lemma TidyLaysOut(s: State, w: WsIx)
    requires Wf(s)
    ensures var r := Tidy(s, w);
      && (OutputFor(s.outputs, w) >= 0 ==> LaidOut(r.wins, s.spaces[w], Origin(s.outputs, w), s.gap, s.ratio))
      && (forall x :: x in s.wins ==> r.wins[x] == s.wins[x].(box := r.wins[x].box))
      && (forall x :: x in s.wins && x !in s.spaces[w].list ==> r.wins[x] == s.wins[x])
  {
    hide Surfaced, FocusLive, Tame;
    if OutputFor(s.outputs, w) >= 0 {
      ArrangedIsLaidOut(s.wins, s.spaces[w], Origin(s.outputs, w), s.gap, s.ratio);
    }
  }

  /** The two layouts of a move. */
  lemma RehomedLaysOut(s: State, m: State, l: State, a: State, id: Id, index: WsIx)
    requires Wf(s) && id in s.wins && s.wins[id].kind == Xdg && s.wins[id].ws != index
    requires m == Relink(s, id, index) && l == Land(m, id, index) && a == Tidy(l, s.wins[id].ws)
    ensures a.outputs == s.outputs && a.spaces == m.spaces && a.gap == s.gap && a.ratio == s.ratio
    ensures OutputFor(s.outputs, index) >= 0 ==>
      LaidOut(a.wins, a.spaces[index], Origin(s.outputs, index), s.gap, s.ratio)
    ensures OutputFor(s.outputs, s.wins[id].ws) >= 0 ==>
      LaidOut(a.wins, a.spaces[s.wins[id].ws], Origin(s.outputs, s.wins[id].ws), s.gap, s.ratio)
  {
    hide Surfaced, FocusLive, Tame, Respaced, Tiled;
    var home := s.wins[id].ws;
    TidyLaysOut(m, index);
    TidyLaysOut(l, home);
    assert forall x :: x in m.spaces[index].list ==> x !in m.spaces[home].list;
    if OutputFor(s.outputs, index) >= 0 {
      LaidOutLocal(l.wins, a.wins, a.spaces[index], Origin(s.outputs, index), s.gap, s.ratio);
    }
  }

  lemma LandEffect(s: State, id: Id, w: WsIx)
    requires Wf(s) && id in s.wins
    ensures var r := Land(s, id, w);
      && r.wins.Keys == s.wins.Keys
      && (forall x :: x in s.wins ==> r.wins[x].ws == s.wins[x].ws)
      && (forall x :: x in s.wins && x !in s.spaces[w].list ==> r.wins[x].box == s.wins[x].box)
  {
    hide Linked, Surfaced, FocusLive, Tame;
    TidyLaysOut(s, w);
  }

  /** No window of a third workspace moves, and no window changes its workspace but the one being moved. */
  lemma RehomedSpares(s: State, m: State, l: State, a: State, id: Id, index: WsIx)
    requires Wf(s) && id in s.wins && s.wins[id].kind == Xdg && s.wins[id].ws != index
    requires m == Relink(s, id, index) && l == Land(m, id, index) && a == Tidy(l, s.wins[id].ws)
    ensures a.wins.Keys == s.wins.Keys
    ensures forall x :: x in s.wins ==> a.wins[x].ws == if x == id then index else s.wins[x].ws
    ensures forall x :: x in s.wins && s.wins[x].ws != s.wins[id].ws && s.wins[x].ws != index ==>
      a.wins[x].box == s.wins[x].box
  {
    hide Surfaced, FocusLive, Tame, Tiled, Land, Tidy;
    var home := s.wins[id].ws;
    LandEffect(m, id, index);
    TidyLaysOut(l, home);
    assert l.spaces == m.spaces;
    forall x | x in s.wins && s.wins[x].ws != home && s.wins[x].ws != index
      ensures x !in m.spaces[index].list && x !in l.spaces[home].list
    {
      assert m.wins[x].ws == s.wins[x].ws;
    }
  }

  /** Releasing the focus leaves rectangles, lists and outputs alone. */
  lemma ReleaseEffect(s: State, id: Id, w: WsIx)
    requires Wf(s) && id in s.wins
    ensures var r := Release(s, id, w);
      && r.outputs == s.outputs && r.spaces == s.spaces && r.gap == s.gap && r.ratio == s.ratio
      && r.wins.Keys == s.wins.Keys
      && forall x :: x in s.wins ==> r.wins[x] == s.wins[x].(serial := r.wins[x].serial)
  {
    hide Linked, Surfaced, FocusLive, Tame, FocusTarget, Survives;
  }

  lemma MoveLists(s: State, a: State, r: State, id: Id, index: WsIx)
    requires Wf(s) && id in s.wins && s.wins[id].kind == Xdg && s.wins[id].ws != index
    requires Wf(a) && a.spaces == Relink(s, id, index).spaces && r.spaces == a.spaces
    requires r.wins.Keys == a.wins.Keys && forall x :: x in a.wins ==> r.wins[x] == a.wins[x].(serial := r.wins[x].serial)
    ensures r.spaces[index].list == [id] + s.spaces[index].list
    ensures r.spaces[s.wins[id].ws].list == Without(s.spaces[s.wins[id].ws].list, id)
    ensures forall w: WsIx, area: Box, gap: int, ratio: real :: LaidOut(a.wins, a.spaces[w], area, gap, ratio) ==>
      LaidOut(r.wins, r.spaces[w], area, gap, ratio)
  {
    forall w: WsIx, area: Box, gap: int, ratio: real | LaidOut(a.wins, a.spaces[w], area, gap, ratio)
      ensures LaidOut(r.wins, r.spaces[w], area, gap, ratio)
    {
      LaidOutLocal(a.wins, r.wins, a.spaces[w], area, gap, ratio);
    }
  }

  /** Moving a window lays out both workspaces exactly, where they are shown, touches no window of any
      third workspace, keeps the set of windows, and links the window at the head of its new list. */
  lemma MoveLaysOut(s: State, id: Id, index: WsIx)
    requires Wf(s) && id in s.wins && s.wins[id].kind == Xdg && s.wins[id].ws != index
    ensures var r := MoveToplevel(s, id, index); var home := s.wins[id].ws;
      && (OutputFor(s.outputs, index) >= 0 ==>
            LaidOut(r.wins, r.spaces[index], Origin(s.outputs, index), s.gap, s.ratio))
      && (OutputFor(s.outputs, home) >= 0 ==>
            LaidOut(r.wins, r.spaces[home], Origin(s.outputs, home), s.gap, s.ratio))
      && r.wins.Keys == s.wins.Keys
      && (forall x :: x in s.wins ==> r.wins[x].ws == if x == id then index else s.wins[x].ws)
      && (forall x :: x in s.wins && s.wins[x].ws != home && s.wins[x].ws != index ==> r.wins[x].box == s.wins[x].box)
      && r.spaces[index].list == [id] + s.spaces[index].list
      && r.spaces[home].list == Without(s.spaces[home].list, id)
  {
    var home := s.wins[id].ws;
    var m := Relink(s, id, index);
    var l := Land(m, id, index);
    var a := Rehomed(s, id, index);
    assert a == Tidy(l, home);
    var r := Release(a, id, home);
    assert r == MoveToplevel(s, id, index);
    RehomedLaysOut(s, m, l, a, id, index);
    RehomedSpares(s, m, l, a, id, index);
    ReleaseEffect(a, id, home);
    MoveLists(s, a, r, id, index);
  }
}
