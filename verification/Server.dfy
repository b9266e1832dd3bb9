/** The compositor's server object: every handler, as it changes the server's fields step by step. */
module Server {
  import opened Prelude
  import opened Tiling
  import opened Compositor
  import Events

  // ---------------------------------------------------------------- lemmas for the loops

  /** The numbers `kum_workspace_arrange` computes before placing `count` windows. */
  ghost predicate Columns(area: Box, gap: int, ratio: real, count: nat, masterW: int, stackW: int, stackCount: nat) {
    && count >= 1 && stackCount == count - 1
    && masterW == MasterWidth(area, gap, ratio, count) && stackW == area.w - gap * 3 - masterW
  }

  /** `wins` is `was` with the i-th window of `ids` in the i-th rectangle. */
  ghost predicate Placed(was: Windows, wins: Windows, ids: seq<Id>, boxes: seq<Box>)
    requires |ids| == |boxes|
  {
    && wins.Keys == was.Keys
    && (forall id :: id in was ==> wins[id] == was[id].(box := wins[id].box))
    && (forall m :: 0 <= m < |ids| ==> ids[m] in was && wins[ids[m]].box == boxes[m])
    && (forall id :: id in was && id !in ids ==> wins[id] == was[id])
  }

  /** A placing loop has placed the first `i` of `ids` and still has `list` to scan. */
  ghost predicate Placing(was: Windows, wins: Windows, list: seq<Id>, ids: seq<Id>, boxes: seq<Box>, i: int) {
    && |ids| == |boxes| && NoDup(ids) && (forall id :: id in ids ==> id in was)
    && (forall id :: id in list ==> id in was)
    && 0 <= i <= |ids| && ids[i..] == Tiled(was, list)
    && Placed(was, wins, ids[..i], boxes[..i])
  }

  lemma PlacingStarts(was: Windows, list: seq<Id>, ids: seq<Id>, boxes: seq<Box>)
    requires NoDup(list) && (forall id :: id in list ==> id in was) && ids == Tiled(was, list) && |boxes| == |ids|
    ensures Placing(was, was, list[0..], ids, boxes, 0)
  {
    assert list[0..] == list && ids[0..] == ids;
  }

  lemma PlacedAll(was: Windows, wins: Windows, ids: seq<Id>, boxes: seq<Box>)
    requires |ids| == |boxes| && NoDup(ids) && (forall id :: id in ids ==> id in was) && Placed(was, wins, ids, boxes)
    ensures wins == Place(was, ids, boxes)
  {
    var r := Place(was, ids, boxes);
    forall id | id in was
      ensures wins[id] == r[id]
    {
      if id in ids {
        var m :| 0 <= m < |ids| && ids[m] == id;
        assert r[ids[m]] == was[ids[m]].(box := boxes[m]);
      }
    }
  }

  lemma PlacingEnds(was: Windows, wins: Windows, list: seq<Id>, ids: seq<Id>, boxes: seq<Box>, i: int)
    requires Placing(was, wins, list, ids, boxes, i) && |list| == 0
    ensures |ids| == |boxes| && NoDup(ids) && (forall id :: id in ids ==> id in was) && wins == Place(was, ids, boxes)
  {
    assert i == |ids|;
    assert ids[..i] == ids && boxes[..i] == boxes;
    PlacedAll(was, wins, ids, boxes);
  }

  lemma PlacedMore(was: Windows, wins: Windows, ids: seq<Id>, boxes: seq<Box>, i: nat, id: Id)
    requires |ids| == |boxes| && i < |ids| && ids[i] == id && NoDup(ids) && id in was
    requires Placed(was, wins, ids[..i], boxes[..i])
    ensures id in wins && Placed(was, wins[id := wins[id].(box := boxes[i])], ids[..i + 1], boxes[..i + 1])
  {
    assert ids[..i + 1] == ids[..i] + [id];
    assert boxes[..i + 1] == boxes[..i] + [boxes[i]];
  }

  /** What the next iteration of a loop over a window list looks at. */
  lemma TiledFront(wins: Windows, list: seq<Id>, j: nat)
    requires j < |list| && forall id :: id in list[j..] ==> id in wins
    ensures list[j] in wins && list[j..][1..] == list[j + 1..] && forall id :: id in list[j + 1..] ==> id in list[j..]
    ensures Tiled(wins, list[j..]) ==
      (if wins[list[j]].floating || !wins[list[j]].mapped then [] else [list[j]]) + Tiled(wins, list[j + 1..])
    ensures NoDup(list[j..]) ==> list[j] !in list[j + 1..] && NoDup(list[j + 1..])
  {
    assert list[j..] == [list[j]] + list[j + 1..];
    assert list[j..][1..] == list[j + 1..];
  }

  lemma PlacingStep(was: Windows, wins: Windows, list: seq<Id>, ids: seq<Id>, boxes: seq<Box>, j: nat, i: int)
    requires j < |list| && Placing(was, wins, list[j..], ids, boxes, i)
    ensures |ids| == |boxes| && list[j] in wins
    ensures var id := list[j];
      if wins[id].floating || !wins[id].mapped then Placing(was, wins, list[j + 1..], ids, boxes, i)
      else
        && 0 <= i < |ids|
        && Placing(was, wins[id := wins[id].(box := boxes[i])], list[j + 1..], ids, boxes, i + 1)
  {
    TiledFront(was, list, j);
    var id := list[j];
    assert id in list[j..];
    assert wins[id] == was[id].(box := wins[id].box);
    if !wins[id].floating && wins[id].mapped {
      assert ids[i..][0] == id && ids[i..][1..] == ids[i + 1..];
      PlacedMore(was, wins, ids, boxes, i, id);
    }
  }

  /** The better of a window and the best one so far: mapped, with the lesser serial, the earlier on a tie. */
  function EarlierFocused(wins: Windows, id: Id, best: Option<Id>): Option<Id>
    requires id in wins && (best.Some? ==> best.value in wins)
  {
    if wins[id].mapped && (best.None? || wins[id].serial < wins[best.value].serial) then Some(id) else best
  }

  /** The scan has seen the first `j` of `all`. */
  ghost predicate Scanned(wins: Windows, all: seq<Id>, j: int, best: Option<Id>) {
    && 0 <= j <= |all| && (forall id :: id in all ==> id in wins)
    && best == LeastSerial(wins, all[..j])
  }

  lemma ScanStarts(s: State)
    requires Wf(s)
    ensures Scanned(s.wins, s.toplevels + s.xsurfaces, 0, None)
  {
    hide Surfaced, FocusLive;
  }

  lemma ScanStep(wins: Windows, all: seq<Id>, j: int, best: Option<Id>)
    requires Scanned(wins, all, j, best) && j < |all|
    ensures all[j] in wins && (best.Some? ==> best.value in wins)
    ensures Scanned(wins, all, j + 1, EarlierFocused(wins, all[j], best))
  {
    assert all[..j + 1] == all[..j] + [all[j]] && all[..j + 1][..j] == all[..j];
    assert all[j] in all;
  }

  lemma MonocleAt(area: Box, gap: int, ratio: real, n: nat, i: nat)
    requires i < n
    ensures Boxes(Monocle, area, gap, ratio, n)[i] == MonocleBox(area, gap)
  {
  }

  lemma ScanEnds(wins: Windows, all: seq<Id>, best: Option<Id>)
    requires Scanned(wins, all, |all|, best)
    ensures (forall id :: id in all ==> id in wins) && best == LeastSerial(wins, all)
  {
    assert all[..|all|] == all;
  }

  lemma StandStill(wins: Windows, w: WsIx)
    ensures Compositor.Translate(wins, w, 0, 0) == wins
  {
    var r := Compositor.Translate(wins, w, 0, 0);
    assert forall id :: id in wins ==> r[id] == wins[id];
  }

  /** Exactly the windows of `ids` have been shifted. */
  ghost predicate Shifted(was: Windows, wins: Windows, ids: seq<Id>, w: WsIx, dx: int, dy: int) {
    && wins.Keys == was.Keys
    && forall id :: id in was ==>
         wins[id] == if id in ids then was[id].(box := Moved(was[id].box, dx, dy)) else was[id]
  }

  lemma ShiftStep(was: Windows, wins: Windows, ids: seq<Id>, j: nat, w: WsIx, dx: int, dy: int)
    requires j < |ids| && NoDup(ids) && (forall id :: id in ids ==> id in was) && Shifted(was, wins, ids[..j], w, dx, dy)
    ensures ids[j] in wins
    ensures var id := ids[j];
      Shifted(was, wins[id := wins[id].(box := Moved(wins[id].box, dx, dy))], ids[..j + 1], w, dx, dy)
  {
    assert ids[..j + 1] == ids[..j] + [ids[j]];
    assert ids[j] in ids && ids[j] !in ids[..j];
  }

  /** Exactly the windows of `ids` that live on `w` have been shifted. */
  ghost predicate ShiftedX(was: Windows, wins: Windows, ids: seq<Id>, w: WsIx, dx: int, dy: int) {
    && wins.Keys == was.Keys
    && forall id :: id in was ==>
         wins[id] == if id in ids && was[id].ws == w then was[id].(box := Moved(was[id].box, dx, dy)) else was[id]
  }

  lemma ShiftStepX(was: Windows, wins: Windows, ids: seq<Id>, j: nat, w: WsIx, dx: int, dy: int)
    requires j < |ids| && NoDup(ids) && (forall id :: id in ids ==> id in was) && ShiftedX(was, wins, ids[..j], w, dx, dy)
    ensures ids[j] in wins
    ensures var id := ids[j];
      ShiftedX(was, if wins[id].ws == w then wins[id := wins[id].(box := Moved(wins[id].box, dx, dy))] else wins,
               ids[..j + 1], w, dx, dy)
  {
    assert ids[..j + 1] == ids[..j] + [ids[j]];
    assert ids[j] in ids && ids[j] !in ids[..j];
  }

  /** Half way: the xdg windows that live on `w` have been shifted and no others. */
  ghost predicate XdgShifted(was: Windows, wins: Windows, w: WsIx, dx: int, dy: int) {
    && wins.Keys == was.Keys
    && forall id :: id in was ==>
         wins[id] == if was[id].kind == Xdg && was[id].ws == w then was[id].(box := Moved(was[id].box, dx, dy)) else was[id]
  }

  lemma HalfShifted(was: Windows, half: Windows, s: State, list: seq<Id>, w: WsIx, dx: int, dy: int)
    requires Wf(s.(wins := was)) && list == s.spaces[w].list && Shifted(was, half, list, w, dx, dy)
    ensures XdgShifted(was, half, w, dx, dy)
    ensures NoDup(s.xsurfaces) && forall id :: id in s.xsurfaces <==> id in half && half[id].kind == X11
  {
    hide Surfaced, FocusLive;
  }

  lemma AllShifted(was: Windows, half: Windows, wins: Windows, xs: seq<Id>, w: WsIx, dx: int, dy: int)
    requires XdgShifted(was, half, w, dx, dy) && ShiftedX(half, wins, xs, w, dx, dy)
    requires forall id :: id in xs <==> id in half && half[id].kind == X11
    ensures wins == Compositor.Translate(was, w, dx, dy)
  {
    var r := Compositor.Translate(was, w, dx, dy);
    forall id | id in was
      ensures wins[id] == r[id]
    {
      assert half[id].kind == was[id].kind && half[id].ws == was[id].ws;
    }
  }

  lemma EnabledWf(s: State, outputs: seq<Output>, w: WsIx, on: bool)
    requires Wf(s)
    ensures Wf(s.(outputs := outputs, spaces := Enable(s.spaces, w, on)))
  {
    EnableLinked(s.spaces, Enable(s.spaces, w, on), s);
  }

  lemma SwapWindowsIs(s: State, k: nat, index: WsIx, from: Box, to: Box)
    requires k < |s.outputs| && s.outputs[k].active != index && OutputFor(s.outputs, index) >= 0
    requires to == s.outputs[OutputFor(s.outputs, index)].area && from == s.outputs[k].area
    ensures SwapWindows(s, k, index) ==
      Compositor.Translate(Compositor.Translate(s.wins, s.outputs[k].active, to.x - from.x, to.y - from.y),
                           index, from.x - to.x, from.y - to.y)
  {
  }

  /** The outputs after the one that shows `index`, if there is one besides `k`, has taken what `k` shows. */
  function HandedOver(outputs: seq<Output>, k: nat, index: WsIx): (r: seq<Output>)
    requires k < |outputs| && outputs[k].active != index
    ensures |r| == |outputs|
  {
    var o := OtherShowing(outputs, k, index);
    if o < 0 then outputs else outputs[o := outputs[o].(previous := index, active := outputs[k].active)]
  }

  /** The fields `Shown` changes. */
  lemma ShownFields(s: State, k: nat, index: WsIx)
    requires Wf(s) && k < |s.outputs| && s.outputs[k].active != index
    ensures var prev := s.outputs[k].active; var a := HandedOver(s.outputs, k, index); var r := Shown(s, k, index);
      && r == s.(wins := r.wins, outputs := r.outputs, spaces := r.spaces)
      && r.wins == SwapWindows(s, k, index)
      && r.outputs == a[k := a[k].(previous := prev, active := index)]
      && r.spaces == Enable(Enable(s.spaces, prev, OtherShowing(s.outputs, k, index) >= 0), index, true)
  {
    hide Wf, Tame, OtherShowing, SwapWindows;
  }

  lemma TranslatedWf(s: State, wins: Windows, w: WsIx, dx: int, dy: int)
    requires Wf(s) && wins == Compositor.Translate(s.wins, w, dx, dy)
    ensures Wf(s.(wins := wins))
  {
    RedrawnIsTame(s, s.(wins := wins));
  }

  // ---------------------------------------------------------------- the compositor

  class KumServer {
    var outputs: seq<Output>
    var spaces: seq<Space>
    var wins: Windows
    var toplevels: seq<Id>
    var xsurfaces: seq<Id>
    var focused: Option<Id>
    var focusedX: Option<Id>
    var seat: Option<Surface>
    var keyboard: bool
    var nextSerial: nat
    var locked: bool
    var activeLock: Option<Lock>
    var granted: set<Lock>
    var gap: int
    var ratio: real

    /** The server's fields as one value. */
    function View(): State
      reads this
    {
      State(outputs, spaces, wins, toplevels, xsurfaces, focused, focusedX, seat, keyboard, nextSerial,
            locked, activeLock, granted, gap, ratio)
    }

    /** `kum_server_init` with `kum_workspace_init`. */
    constructor (keyboard: bool, gap: int, ratio: real)
      ensures View() == Events.Boot(keyboard, gap, ratio)
    {
      outputs := [];
      spaces := seq(COUNT, _ => Space(Floating, [], false));
      wins := map[];
      toplevels := [];
      xsurfaces := [];
      focused := None;
      focusedX := None;
      seat := None;
      this.keyboard := keyboard;
      nextSerial := 0;
      locked := false;
      activeLock := None;
      granted := {};
      this.gap := gap;
      this.ratio := ratio;
    }

    // -------------------------------------------------------------- src/workspace.c

    method OutputForWorkspace(w: WsIx) returns (k: int)
      ensures k == OutputFor(outputs, w)
    {
      k := 0;
      while k < |outputs|
        invariant 0 <= k <= |outputs|
        invariant forall i :: 0 <= i < k ==> outputs[i].active != w
      {
        if outputs[k].active == w {
          return;
        }
        k := k + 1;
      }
      k := -1;
    }

    /** The counting pass of `kum_workspace_arrange`. */
    method CountManaged(list: seq<Id>) returns (count: nat)
      requires forall id :: id in list ==> id in wins
      ensures count == |Tiled(wins, list)|
    {
      count := 0;
      assert list[0..] == list;
      for j := 0 to |list|
        invariant forall id :: id in list[j..] ==> id in wins
        invariant count + |Tiled(wins, list[j..])| == |Tiled(wins, list)|
      {
        TiledFront(wins, list, j);
        if !wins[list[j]].floating && wins[list[j]].mapped {
          count := count + 1;
        }
      }
    }

    /** `wlr_scene_node_set_position` and `wlr_xdg_toplevel_set_size` on one window. */
    method PlaceWindow(id: Id, box: Box)
      requires id in wins
      modifies this`wins
      ensures wins == old(wins)[id := old(wins)[id].(box := box)]
    {
      wins := wins[id := wins[id].(box := box)];
    }

    /** The rectangle computed inside the placing pass for the `i`-th window. */
    method TileSlot(area: Box, g: int, ghost mr: real, ghost count: nat, i: nat,
                    masterW: int, stackW: int, stackCount: nat)
      returns (box: Box)
      requires i < count && Columns(area, g, mr, count, masterW, stackW, stackCount)
      ensures box == Boxes(Tile, area, g, mr, count)[i]
    {
      var x, y, w, h;
      if i == 0 {
        x := area.x + g;
        y := area.y + g;
        w := masterW;
        h := area.h - g * 2;
      } else {
        var slot := i - 1;
        var slotH := CDiv(area.h - g * (stackCount + 1), stackCount);
        x := area.x + g * 2 + masterW;
        y := area.y + g + slot * (slotH + g);
        w := stackW;
        h := slotH;
      }
      box := Box(x, y, w, h);
    }

    /** The placing pass of `kum_workspace_arrange`. */
    method TileManaged(area: Box, list: seq<Id>, count: nat, masterW: int, stackW: int, stackCount: nat)
      requires NoDup(list) && forall id :: id in list ==> id in wins
      requires count == |Tiled(wins, list)| && Columns(area, gap, ratio, count, masterW, stackW, stackCount)
      modifies this`wins
      ensures wins == Place(old(wins), Tiled(old(wins), list), Boxes(Tile, area, gap, ratio, count))
    {
      var g := gap;
      ghost var mr := ratio;
      ghost var was := wins;
      ghost var ids := Tiled(was, list);
      ghost var boxes := Boxes(Tile, area, g, mr, count);
      PlacingStarts(was, list, ids, boxes);
      hide Boxes, Placing, Columns;
      var i := 0;
      for j := 0 to |list|
        invariant Placing(was, wins, list[j..], ids, boxes, i)
      {
        PlacingStep(was, wins, list, ids, boxes, j, i);
        var id := list[j];
        if !wins[id].floating && wins[id].mapped {
          var box := TileSlot(area, g, mr, count, i, masterW, stackW, stackCount);
          PlaceWindow(id, box);
          i := i + 1;
        }
      }
      PlacingEnds(was, wins, list[|list|..], ids, boxes, i);
    }

    /** The master/stack half of `kum_workspace_arrange`. */
    method TileArrange(area: Box, list: seq<Id>)
      requires NoDup(list) && forall id :: id in list ==> id in wins
      modifies this`wins
      ensures wins == Place(old(wins), Tiled(old(wins), list), Boxes(Tile, area, gap, ratio, |Tiled(old(wins), list)|))
    {
      var count := CountManaged(list);
      if count == 0 {
        return;
      }
      var masterW := if count == 1 then area.w - gap * 2 else Trunc((area.w - gap * 3) as real * ratio);
      TileManaged(area, list, count, masterW, area.w - gap * 3 - masterW, count - 1);
    }

    /** `kum_workspace_monocle_arrange`. */
    method MonocleManaged(area: Box, list: seq<Id>)
      requires NoDup(list) && forall id :: id in list ==> id in wins
      modifies this`wins
      ensures wins == Place(old(wins), Tiled(old(wins), list), Boxes(Monocle, area, gap, ratio, |Tiled(old(wins), list)|))
    {
      var g := gap;
      ghost var mr := ratio;
      ghost var was := wins;
      ghost var ids := Tiled(was, list);
      ghost var boxes := Boxes(Monocle, area, g, mr, |ids|);
      ghost var i := 0;
      PlacingStarts(was, list, ids, boxes);
      hide Boxes, Placing;
      for j := 0 to |list|
        invariant Placing(was, wins, list[j..], ids, boxes, i)
      {
        PlacingStep(was, wins, list, ids, boxes, j, i);
        var id := list[j];
        if !wins[id].floating && wins[id].mapped {
          MonocleAt(area, g, mr, |ids|, i);
          PlaceWindow(id, MonocleBox(area, g));
          i := i + 1;
        }
      }
      PlacingEnds(was, wins, list[|list|..], ids, boxes, i);
    }

    method Arrange(area: Box, w: WsIx)
      requires Wf(View())
      modifies this`wins
      ensures View() == Compositor.Arrange(old(View()), area, w)
    {
      assert |spaces| == COUNT;
      hide Tiled, Place, Surfaced, FocusLive, Tame;
      if spaces[w].layout == Floating {
        return;
      }
      if spaces[w].layout == Monocle {
        MonocleManaged(area, spaces[w].list);
        return;
      }
      TileArrange(area, spaces[w].list);
    }

    /** `workspace_translate`: the xdg windows of the workspace's list, then the X11 windows that name it. */
    method Translate(w: WsIx, dx: int, dy: int)
      requires Wf(View())
      modifies this`wins
      ensures wins == Compositor.Translate(old(wins), w, dx, dy)
    {
      if dx == 0 && dy == 0 {
        StandStill(wins, w);
        return;
      }
      ghost var was := wins;
      var list := spaces[w].list;
      for j := 0 to |list|
        invariant Shifted(was, wins, list[..j], w, dx, dy)
      {
        ShiftStep(was, wins, list, j, w, dx, dy);
        var id := list[j];
        wins := wins[id := wins[id].(box := Moved(wins[id].box, dx, dy))];
      }
      assert list[..|list|] == list;
      ghost var half := wins;
      HalfShifted(was, half, View(), list, w, dx, dy);
      for j := 0 to |xsurfaces|
        invariant ShiftedX(half, wins, xsurfaces[..j], w, dx, dy)
      {
        ShiftStepX(half, wins, xsurfaces, j, w, dx, dy);
        var id := xsurfaces[j];
        if wins[id].ws == w {
          wins := wins[id := wins[id].(box := Moved(wins[id].box, dx, dy))];
        }
      }
      assert xsurfaces[..|xsurfaces|] == xsurfaces;
      AllShifted(was, half, wins, xsurfaces, w, dx, dy);
    }

    // -------------------------------------------------------------- focus

    /** The effects of `kum_focus_toplevel` past its guards. */
    method TakeFocus(id: Id, surface: Surface)
      requires id in wins
      modifies this`focusedX, this`toplevels, this`focused, this`nextSerial, this`wins, this`seat
      ensures focusedX == None && focused == Some(id) && toplevels == [id] + Without(old(toplevels), id)
      ensures nextSerial == old(nextSerial) + 1 && wins == Stamp(old(wins), id, nextSerial)
      ensures seat == if keyboard then Some(surface) else old(seat)
    {
      focusedX := None;
      toplevels := Without(toplevels, id);
      toplevels := [id] + toplevels;
      focused := Some(id);
      nextSerial := nextSerial + 1;
      wins := wins[id := wins[id].(serial := nextSerial)];
      if keyboard {
        seat := Some(surface);
      }
    }

    method FocusToplevel(id: Id, surface: Surface)
      requires Wf(View()) && id in wins && wins[id].kind == Xdg && wins[id].mapped
      requires forall a :: a in wins && wins[a].surface == Some(surface) ==> a == id
      modifies this
      ensures View() == Compositor.FocusToplevel(old(View()), id, surface)
    {
      hide Wf, Tame, Refocused;
      if locked {
        return;
      }
      if seat == Some(surface) {
        return;
      }
      TakeFocus(id, surface);
    }

    method FocusX(id: Id)
      requires Wf(View()) && id in wins && wins[id].kind == X11 && wins[id].mapped
      modifies this
      ensures View() == Compositor.FocusX(old(View()), id)
    {
      hide Linked, Surfaced, FocusLive, Tame, Refocused, OnlyRedrawn;
      if locked {
        return;
      }
      var surface := wins[id].surface;
      if seat == surface {
        return;
      }
      focused := None;
      focusedX := Some(id);
      nextSerial := nextSerial + 1;
      wins := wins[id := wins[id].(serial := nextSerial)];
      if keyboard {
        seat := surface;
      }
    }

    /** The search repeated after a switch, a move, a migration and a jump to another output. */
    method FocusFirst(w: WsIx)
      requires Wf(View())
      modifies this
      ensures View() == Compositor.FocusFirst(old(View()), w)
    {
      var list := spaces[w].list;
      var j := 0;
      while j < |list|
        invariant 0 <= j <= |list|
        invariant unchanged(this) && forall id :: id in list[j..] ==> id in wins
        invariant FirstMapped(wins, list) == FirstMapped(wins, list[j..])
      {
        assert list[j] in list && list[j..][1..] == list[j + 1..];
        if wins[list[j]].mapped {
          FocusToplevel(list[j], wins[list[j]].surface.value);
          return;
        }
        j := j + 1;
      }
      j := 0;
      while j < |xsurfaces|
        invariant 0 <= j <= |xsurfaces|
        invariant unchanged(this) && forall id :: id in xsurfaces[j..] ==> id in wins
        invariant FirstMappedOn(wins, xsurfaces, w) == FirstMappedOn(wins, xsurfaces[j..], w)
      {
        assert xsurfaces[j] in xsurfaces && xsurfaces[j..][1..] == xsurfaces[j + 1..];
        if wins[xsurfaces[j]].ws == w && wins[xsurfaces[j]].mapped {
          FocusX(xsurfaces[j]);
          return;
        }
        j := j + 1;
      }
    }

    /** The comparison inside the scans. */
    method Better(id: Id, best: Option<Id>) returns (r: Option<Id>)
      requires id in wins && (best.Some? ==> best.value in wins)
      ensures r == EarlierFocused(wins, id, best)
    {
      r := best;
      if wins[id].mapped {
        if best.None? || wins[id].serial < wins[best.value].serial {
          r := Some(id);
        }
      }
    }

    /** One scan; `start` is the best window of the `n` looked at before. */
    method ScanList(list: seq<Id>, start: Option<Id>, ghost all: seq<Id>, ghost n: nat) returns (best: Option<Id>)
      requires n + |list| <= |all| && list == all[n..n + |list|] && Scanned(wins, all, n, start)
      ensures Scanned(wins, all, n + |list|, best)
    {
      best := start;
      hide Scanned;
      for j := 0 to |list|
        invariant Scanned(wins, all, n + j, best)
      {
        ScanStep(wins, all, n + j, best);
        best := Better(list[j], best);
      }
    }

    /** The two scans of `action_cycle_focus`: xdg windows first, then X11 windows. */
    method LongestUnfocused() returns (best: Option<Id>)
      requires Wf(View())
      ensures best == CyclePick(View())
    {
      ghost var all := toplevels + xsurfaces;
      hide Wf, Scanned, LeastSerial;
      ScanStarts(View());
      best := ScanList(toplevels, None, all, 0);
      best := ScanList(xsurfaces, best, all, |toplevels|);
      ScanEnds(wins, all, best);
    }

    /** `action_cycle_focus`. */
    method CycleFocus()
      requires Wf(View())
      modifies this
      ensures View() == Compositor.CycleFocus(old(View()))
    {
      hide Linked, FocusLive, Tame, Refocused, Compositor.FocusToplevel, Compositor.FocusX, CyclePick;
      var best := LongestUnfocused();
      if best.Some? {
        if wins[best.value].kind == Xdg {
          FocusToplevel(best.value, wins[best.value].surface.value);
        } else {
          FocusX(best.value);
        }
      }
    }

    /** The focus checks of `kum_workspace_switch`. */
    method DropFocusOn(w: WsIx)
      requires Wf(View())
      modifies this`focused, this`focusedX, this`seat
      ensures View() == Compositor.DropFocusOn(old(View()), w)
    {
      if focused.Some? && wins[focused.value].ws == w {
        focused := None;
        seat := None;
      }
      if focusedX.Some? && wins[focusedX.value].ws == w {
        focusedX := None;
        seat := None;
      }
    }

    // -------------------------------------------------------------- switching

    /** The two translations of a swap. */
    method ExchangeWindows(prev: WsIx, index: WsIx, from: Box, to: Box)
      requires Wf(View())
      modifies this`wins
      ensures wins == Compositor.Translate(Compositor.Translate(old(wins), prev, to.x - from.x, to.y - from.y),
                                           index, from.x - to.x, from.y - to.y)
    {
      hide Wf, Compositor.Translate;
      ghost var s := View();
      Translate(prev, to.x - from.x, to.y - from.y);
      TranslatedWf(s, wins, prev, to.x - from.x, to.y - from.y);
      Translate(index, from.x - to.x, from.y - to.y);
    }

    /** The body of the search loop: output `o` takes over what `k` showed, and both sets of windows move. */
    method SwapWith(k: nat, o: nat, index: WsIx)
      requires Wf(View()) && k < |outputs| && o < |outputs| && o != k
      requires outputs[k].active != index && o == OutputFor(outputs, index)
      modifies this`outputs, this`spaces, this`wins
      ensures outputs == old(outputs)[o := old(outputs)[o].(previous := index, active := old(outputs)[k].active)]
      ensures spaces == Enable(old(spaces), old(outputs)[k].active, true)
      ensures wins == SwapWindows(old(View()), k, index)
    {
      var prev := outputs[k].active;
      var to := outputs[o].area;
      var from := outputs[k].area;
      assert |spaces| == COUNT && outputs[o].active == index;
      hide Wf, Tame, SwapWindows, OutputFor, Compositor.Translate;
      ghost var s := View();
      ghost var swapped := outputs[o := outputs[o].(previous := index, active := prev)];
      EnabledWf(s, swapped, prev, true);
      SwapWindowsIs(s, k, index, from, to);
      outputs := outputs[o := outputs[o].(previous := index, active := prev)];
      spaces := spaces[prev := spaces[prev].(enabled := true)];
      assert View() == s.(outputs := swapped, spaces := Enable(s.spaces, prev, true));
      ExchangeWindows(prev, index, from, to);
    }

    /** The search for another output that shows the workspace; says whether there was one. */
    method SwapWithOther(k: nat, index: WsIx) returns (found: bool)
      requires Wf(View()) && k < |outputs| && outputs[k].active != index
      modifies this`outputs, this`spaces, this`wins
      ensures |spaces| == COUNT && found == (OtherShowing(old(outputs), k, index) >= 0)
      ensures outputs == HandedOver(old(outputs), k, index)
      ensures spaces == if !found then old(spaces) else Enable(old(spaces), old(outputs)[k].active, true)
      ensures wins == SwapWindows(old(View()), k, index)
    {
      assert |spaces| == COUNT;
      hide Wf, OutputFor;
      found := false;
      var o := 0;
      while o < |outputs|
        invariant 0 <= o <= |outputs| && !found && unchanged(this)
        invariant forall i :: 0 <= i < o ==> outputs[i].active != index
      {
        if o != k && outputs[o].active == index {
          SwapWith(k, o, index);
          found := true;
          break;
        }
        o := o + 1;
      }
    }

    /** The end of that part: output `k` shows `index` instead of `prev`; `was` are the
        workspaces before the switch. */
    method Activate(k: nat, prev: WsIx, index: WsIx, prevStaysVisible: bool, ghost was: seq<Space>)
      requires |was| == |spaces| == COUNT && k < |outputs|
      requires spaces == if prevStaysVisible then Enable(was, prev, true) else was
      modifies this`outputs, this`spaces
      ensures outputs == old(outputs)[k := old(outputs)[k].(previous := prev, active := index)]
      ensures spaces == Enable(Enable(was, prev, prevStaysVisible), index, true)
    {
      if !prevStaysVisible {
        spaces := spaces[prev := spaces[prev].(enabled := false)];
      }
      outputs := outputs[k := outputs[k].(previous := prev, active := index)];
      spaces := spaces[index := spaces[index].(enabled := true)];
    }

    /** The part of a switch that changes outputs, scene trees and window positions. */
    method ShowOn(k: nat, index: WsIx)
      requires Wf(View()) && k < |outputs| && outputs[k].active != index
      modifies this`outputs, this`spaces, this`wins
      ensures View() == Shown(old(View()), k, index)
    {
      assert |spaces| == COUNT;
      ShownFields(View(), k, index);
      hide Wf, Tame, OtherShowing, SwapWindows, Shown, Enable, HandedOver;
      var prev := outputs[k].active;
      var prevStaysVisible := SwapWithOther(k, index);
      Activate(k, prev, index, prevStaysVisible, old(spaces));
    }

    /** `kum_workspace_switch`. */
    method Switch(k: int, index: int)
      requires Wf(View())
      modifies this
      ensures View() == Compositor.Switch(old(View()), k, index)
    {
      if index < 0 || index >= COUNT {
        return;
      }
      if k < 0 || k >= |outputs| {
        return;
      }
      if outputs[k].active == index {
        return;
      }
      var prev := outputs[k].active;
      ShowOn(k, index);
      DropFocusOn(prev);
      FocusFirst(index);
    }

    /** `action_switch_workspace`; `k` is the output under the cursor. */
    method ActionSwitchWorkspace(k: int, index: WsIx)
      requires Wf(View())
      modifies this
      ensures View() == KeySwitch(old(View()), k, index)
    {
      if k < 0 || k >= |outputs| {
        return;
      }
      var target := index;
      if outputs[k].active == index {
        target := outputs[k].previous;
      }
      Switch(k, target);
    }

    /** `kum_workspace_scratchpad_toggle`. */
    method ScratchpadToggle(k: int)
      requires Wf(View())
      modifies this
      ensures View() == Scratchpad(old(View()), k)
    {
      if k < 0 || k >= |outputs| {
        return;
      }
      if outputs[k].active == SCRATCH {
        // the first workspace that is not the scratchpad
        Switch(k, if SCRATCH == 0 then 1 else 0);
      } else {
        Switch(k, SCRATCH);
      }
    }

    // -------------------------------------------------------------- moving windows

    /** The focus check of a move; `src` shows the old workspace. */
    method ReleaseFocus(id: Id, home: WsIx, src: int)
      requires Wf(View()) && id in wins && src == OutputFor(outputs, home)
      modifies this
      ensures View() == Release(old(View()), id, home)
    {
      hide Wf, Tame, Compositor.FocusFirst, OutputFor;
      if focused == Some(id) {
        ghost var s := View();
        focused := None;
        seat := None;
        assert View() == Unfocus(s);
        if src >= 0 {
          FocusFirst(home);
        }
      }
    }

    /** The destination's half of a move. */
    method LandOn(id: Id, index: WsIx)
      requires Wf(View()) && id in wins
      modifies this`wins
      ensures View() == Land(old(View()), id, index)
    {
      hide Wf, Tame, OutputFor, Compositor.Arrange;
      var dst := OutputForWorkspace(index);
      if dst >= 0 {
        Arrange(outputs[dst].area, index);
      } else {
        wins := wins[id := wins[id].(shown := false)];
      }
    }

    /** `wl_list_remove` from the old workspace's list and `wl_list_insert` at the head of the new one. */
    method LinkAt(id: Id, index: WsIx)
      requires Wf(View()) && id in wins && wins[id].kind == Xdg && wins[id].ws != index
      modifies this`spaces, this`wins
      ensures View() == Relink(old(View()), id, index)
    {
      hide Linked, Surfaced, FocusLive, Tame, Calm;
      var home := wins[id].ws;
      spaces := spaces[home := spaces[home].(list := Without(spaces[home].list, id))];
      spaces := spaces[index := spaces[index].(list := [id] + spaces[index].list)];
      wins := wins[id := wins[id].(ws := index)];
    }

    /** The relinking and the two layouts of a move; `src` shows the old workspace. */
    method Rehome(id: Id, index: WsIx, src: int)
      requires Wf(View()) && id in wins && wins[id].kind == Xdg && wins[id].ws != index
      requires src == OutputFor(outputs, wins[id].ws)
      modifies this`spaces, this`wins
      ensures View() == Rehomed(old(View()), id, index) && outputs == old(outputs)
    {
      hide Wf, Tame, OutputFor, Compositor.Arrange, Relink, Land;
      var home := wins[id].ws;
      LinkAt(id, index);
      LandOn(id, index);
      if src >= 0 {
        Arrange(outputs[src].area, home);
      }
    }

    /** `kum_workspace_move_toplevel`. */
    method MoveToplevel(id: Id, index: int)
      requires Wf(View()) && id in wins && wins[id].kind == Xdg
      modifies this
      ensures View() == Compositor.MoveToplevel(old(View()), id, index)
    {
      hide Wf, Tame, Rehomed, Release, OutputFor;
      if index < 0 || index >= COUNT {
        return;
      }
      if index == wins[id].ws {
        return;
      }
      var home := wins[id].ws;
      var src := OutputForWorkspace(home);
      Rehome(id, index, src);
      ReleaseFocus(id, home, src);
    }

    method SetHomeX(id: Id, index: WsIx)
      requires Wf(View()) && id in wins && wins[id].kind == X11
      modifies this`wins
      ensures View() == RehomeX(old(View()), id, index)
    {
      hide Wf, Tame, Calm;
      wins := wins[id := wins[id].(ws := index)];
      var dst := OutputForWorkspace(index);
      if dst < 0 {
        wins := wins[id := wins[id].(shown := false)];
      }
    }

    /** `kum_workspace_move_xwayland_surface`. */
    method MoveXwaylandSurface(id: Id, index: int)
      requires Wf(View()) && id in wins && wins[id].kind == X11
      modifies this
      ensures View() == MoveX(old(View()), id, index)
    {
      hide Wf, Tame;
      if index < 0 || index >= COUNT {
        return;
      }
      if index == wins[id].ws {
        return;
      }
      SetHomeX(id, index);
      if focusedX == Some(id) {
        focusedX := None;
        seat := None;
      }
    }

    /** `action_move_to_workspace`. */
    method ActionMoveToWorkspace(index: int)
      requires Wf(View())
      modifies this
      ensures View() == KeyMove(old(View()), index)
    {
      if focused.Some? {
        MoveToplevel(focused.value, index);
        return;
      }
      if focusedX.Some? {
        MoveXwaylandSurface(focusedX.value, index);
      }
    }

    // -------------------------------------------------------------- src/output.c

    /** `next_free_workspace`. */
    method NextFreeWorkspace() returns (w: WsIx)
      ensures w == NextFree(outputs)
    {
      var used := new bool[COUNT](_ => false);
      for k := 0 to |outputs|
        invariant forall v :: 0 <= v < COUNT ==> (used[v] <==> exists i :: 0 <= i < k && outputs[i].active == v)
      {
        used[outputs[k].active] := true;
      }
      for i := 0 to COUNT
        invariant forall v :: 0 <= v < i ==> OutputFor(outputs, v) != -1
        invariant NextFree(outputs) == NextFree(outputs, i)
      {
        if !used[i] {
          assert OutputFor(outputs, i) == -1;
          return i;
        }
      }
      return 0;
    }

    /** `kum_new_output`; `area` is what the output layout assigns. */
    method NewOutput(area: Box)
      requires Wf(View())
      modifies this`outputs, this`spaces
      ensures View() == Connect(old(View()), area)
    {
      var w := NextFreeWorkspace();
      outputs := [Output(area, w, 0)] + outputs;
      spaces := spaces[w := spaces[w].(enabled := true)];
    }

    /** `migrate_workspace`, once an output is left. */
    method MigrateWorkspace(w: WsIx)
      requires Wf(View()) && |outputs| > 0
      modifies this
      ensures View() == Compositor.FocusFirst(TakeOver(old(View()), w), w)
    {
      hide Linked, Surfaced, FocusLive, Tame, Refocused, OnlyRedrawn;
      ghost var s := View();
      var oldActive := outputs[0].active;
      outputs := outputs[0 := outputs[0].(active := w)];
      spaces := spaces[oldActive := spaces[oldActive].(enabled := false)];
      spaces := spaces[w := spaces[w].(enabled := true)];
      EnableLinked(s.spaces, spaces, s);
      if spaces[w].layout == Tile {
        Arrange(outputs[0].area, w);
      }
      FocusFirst(w);
    }

    /** The focus check of `output_destroy`, which leaves an X11 focus pointer alone. */
    method DropXdgFocusOn(w: WsIx)
      requires Wf(View())
      modifies this`focused, this`seat
      ensures View() == Compositor.DropXdgFocusOn(old(View()), w)
    {
      if focused.Some? && wins[focused.value].ws == w {
        focused := None;
        seat := None;
      }
    }

    /** `output_destroy`. */
    method OutputDestroy(k: nat)
      requires Wf(View()) && k < |outputs|
      modifies this
      ensures View() == Disconnect(old(View()), k)
    {
      hide Tame, Compositor.FocusFirst, TakeOver, Compositor.DropXdgFocusOn;
      var w := outputs[k].active;
      outputs := outputs[..k] + outputs[k + 1..];
      DropXdgFocusOn(w);
      if |outputs| > 0 {
        MigrateWorkspace(w);
      } else {
        spaces := spaces[w := spaces[w].(enabled := false)];
      }
    }

    // -------------------------------------------------------------- src/toplevel.c

    /** `kum_new_xdg_toplevel`; `k` is the output under the cursor. */
    method NewXdgToplevel(k: int, id: Id, surface: Surface)
      requires Wf(View()) && id !in wins && Unclaimed(View(), surface)
      modifies this`wins, this`toplevels, this`spaces
      ensures View() == NewToplevel(old(View()), k, id, surface)
    {
      var w: WsIx := if 0 <= k < |outputs| then outputs[k].active else 0;
      wins := wins[id := Window(Xdg, w, Some(surface), false, false, true, false, 0, NOWHERE)];
      toplevels := [id] + toplevels;
      spaces := spaces[w := spaces[w].(list := [id] + spaces[w].list)];
    }

    /** wlroots marks the surface mapped before the handler runs. */
    method MarkMapped(id: Id)
      requires Wf(View()) && id in wins && wins[id].surface.Some?
      modifies this`wins
      ensures View() == SetMapped(old(View()), id, true)
    {
      hide Wf, Tame;
      wins := wins[id := wins[id].(mapped := true)];
    }

    /** The first half of `toplevel_map`: lay out, or centre on the output. */
    method SettleDown(id: Id, gw: int, gh: int)
      requires Wf(View()) && id in wins && OnScreenIfTiled(View(), id)
      modifies this`wins
      ensures View() == Settle(old(View()), id, gw, gh)
    {
      hide Linked, Surfaced, FocusLive, Tame, OnlyRedrawn, OutputFor;
      var w := wins[id].ws;
      var k := OutputForWorkspace(w);
      if spaces[w].layout == Tile && !wins[id].floating {
        Arrange(outputs[k].area, w);
      } else if k >= 0 {
        var area := outputs[k].area;
        var x := area.x + CDiv(area.w - gw, 2);
        var y := area.y + CDiv(area.h - gh, 2);
        wins := wins[id := wins[id].(box := wins[id].box.(x := x, y := y))];
      }
    }

    method RestyleWindow(id: Id, rule: Rule)
      requires Wf(View()) && id in wins
      modifies this`wins
      ensures View() == Restyle(old(View()), id, rule)
    {
      hide Wf, Tame;
      var win := wins[id];
      if rule.floating {
        win := win.(floating := true);
      }
      if rule.w > 0 && rule.h > 0 {
        win := win.(box := win.box.(w := rule.w, h := rule.h));
      }
      if rule.x != 0 || rule.y != 0 {
        win := win.(box := win.box.(x := rule.x, y := rule.y));
      }
      if rule.fullscreen {
        win := win.(fullscreen := true);
      }
      wins := wins[id := win];
    }

    /** The effects of the rule `kum_rules_apply` selected. */
    method RulesApply(id: Id, rule: Option<Rule>)
      requires Wf(View()) && id in wins && wins[id].kind == Xdg
      modifies this
      ensures View() == ApplyRule(old(View()), id, rule)
    {
      hide Linked, Surfaced, FocusLive, Tame, OnlyRedrawn, Compositor.MoveToplevel;
      if rule.None? {
        return;
      }
      MoveToplevel(id, rule.value.workspace);
      RestyleWindow(id, rule.value);
    }

    /** `toplevel_map`, with the rule `kum_rules_apply` selects. */
    method ToplevelMap(id: Id, gw: int, gh: int, rule: Option<Rule>)
      requires Wf(View()) && id in wins && wins[id].kind == Xdg && OnScreenIfTiled(View(), id)
      modifies this
      ensures View() == MapToplevel(old(View()), id, gw, gh, rule)
    {
      hide Linked, FocusLive, Tame, OnlyRedrawn, OutputFor;
      MarkMapped(id);
      SettleDown(id, gw, gh);
      RulesApply(id, rule);
      FocusToplevel(id, wins[id].surface.value);
    }

    /** `toplevel_unmap`. */
    method ToplevelUnmap(id: Id)
      requires Wf(View()) && id in wins && wins[id].kind == Xdg
      modifies this
      ensures View() == UnmapToplevel(old(View()), id)
    {
      ghost var s := View();
      if focused == Some(id) {
        focused := None;
      }
      wins := wins[id := wins[id].(mapped := false)];
      assert View() == SetMapped(if s.focused == Some(id) then s.(focused := None) else s, id, false);
      var w := wins[id].ws;
      var k := OutputForWorkspace(w);
      if spaces[w].layout == Tile && k >= 0 {
        Arrange(outputs[k].area, w);
      }
    }

    /** `toplevel_destroy`. */
    method ToplevelDestroy(id: Id)
      requires Wf(View()) && id in wins && wins[id].kind == Xdg && !wins[id].mapped
      modifies this`wins, this`toplevels, this`spaces
      ensures View() == DestroyToplevel(old(View()), id)
    {
      var w := wins[id].ws;
      spaces := spaces[w := spaces[w].(list := Without(spaces[w].list, id))];
      toplevels := Without(toplevels, id);
      wins := wins - {id};
    }

    // -------------------------------------------------------------- src/tiling.c

    /** `kum_tiling_resize`; `w` and `h` are the focused window's current size. */
    method TilingResize(dw: int, dh: int, w: int, h: int)
      requires Wf(View())
      modifies this`ratio, this`wins
      ensures View() == Resize(old(View()), dw, dh, w, h)
    {
      if focused.None? {
        return;
      }
      var id := focused.value;
      var ws := wins[id].ws;
      if spaces[ws].layout == Tile {
        ratio := ratio + dw as real / 2000.0;
        if ratio < 0.1 {
          ratio := 0.1;
        }
        if ratio > 0.9 {
          ratio := 0.9;
        }
        var k := OutputForWorkspace(ws);
        if k >= 0 {
          Arrange(outputs[k].area, ws);
        }
      } else {
        var nw := w + dw;
        var nh := h + dh;
        if nw < 120 {
          nw := 120;
        }
        if nh < 80 {
          nh := 80;
        }
        wins := wins[id := wins[id].(box := wins[id].box.(w := nw, h := nh))];
      }
    }

    method MoveToTail(id: Id)
      requires Wf(View()) && id in wins && wins[id].kind == Xdg
      modifies this`spaces
      ensures View() == ToTail(old(View()), id)
    {
      var ws := wins[id].ws;
      hide Tame, Linked, Surfaced, FocusLive, Without;
      spaces := spaces[ws := spaces[ws].(list := Without(spaces[ws].list, id))];
      spaces := spaces[ws := spaces[ws].(list := spaces[ws].list + [id])];
    }

    /** `kum_tiling_swap_master`; the search for the master stops at the head of the list. */
    method SwapMaster()
      requires Wf(View()) && HeadTiled(View())
      modifies this`spaces, this`wins
      ensures View() == Compositor.SwapMaster(old(View()))
    {
      if focused.None? {
        return;
      }
      var id := focused.value;
      var ws := wins[id].ws;
      if spaces[ws].layout != Tile {
        return;
      }
      if wins[id].floating {
        return;
      }
      var master := spaces[ws].list[0];
      if master == id {
        return;
      }
      hide Wf, Tame, Compositor.Arrange;
      ghost var s := View();
      MoveToTail(id);
      var k := OutputForWorkspace(ws);
      if k >= 0 {
        Arrange(outputs[k].area, ws);
      }
      assert View() == Tidy(ToTail(s, id), ws);
    }

    // -------------------------------------------------------------- layouts and areas

    /** `kum_workspace_toggle_layout`. */
    method ToggleLayout(k: int)
      requires Wf(View())
      modifies this`spaces, this`wins
      ensures View() == Compositor.ToggleLayout(old(View()), k)
    {
      if k < 0 || k >= |outputs| {
        return;
      }
      var w := outputs[k].active;
      ghost var s := View();
      var layout := if spaces[w].layout == Floating then Tile else Floating;
      spaces := spaces[w := spaces[w].(layout := layout)];
      assert View() == Compositor.SetLayout(s, w, layout);
      hide Wf, Tame;
      if layout == Tile {
        Arrange(outputs[k].area, w);
      }
    }

    /** The `layout` command of `ipc_handle_command`. */
    method LayoutCommand(k: int, layout: Layout)
      requires Wf(View())
      modifies this`spaces, this`wins
      ensures View() == ChooseLayout(old(View()), k, layout)
    {
      if k < 0 || k >= |outputs| {
        return;
      }
      var w := outputs[k].active;
      ghost var s := View();
      spaces := spaces[w := spaces[w].(layout := layout)];
      assert View() == Compositor.SetLayout(s, w, layout);
      hide Wf, Tame;
      if layout != Floating {
        Arrange(outputs[k].area, w);
      }
    }

    /** `kum_server_reload_config`, as far as it changes layouts. */
    method ReloadConfig(g: int, mr: real)
      requires Wf(View())
      modifies this`gap, this`ratio, this`wins
      ensures View() == Events.ArrangeFrom(old(View()).(gap := g, ratio := mr), 0)
    {
      ghost var start := View().(gap := g, ratio := mr);
      gap := g;
      ratio := mr;
      var k := 0;
      assert |spaces| == COUNT;
      hide Wf, Tame, Compositor.Arrange;
      while k < |outputs|
        invariant 0 <= k <= |outputs| && Wf(View()) && |spaces| == COUNT
        invariant Events.ArrangeFrom(View(), k) == Events.ArrangeFrom(start, 0)
      {
        var w := outputs[k].active;
        ghost var s := View();
        if spaces[w].layout == Tile {
          Arrange(outputs[k].area, w);
          assert View() == Compositor.Arrange(s, s.outputs[k].area, w);
        }
        k := k + 1;
      }
    }

    /** The end of `recalculate_usable_area`; `area` is what the layer surfaces leave. */
    method RecalculateUsableArea(k: nat, area: Box)
      requires Wf(View()) && k < |outputs|
      modifies this`outputs, this`wins
      ensures View() == SetArea(old(View()), k, area)
    {
      hide Tame;
      outputs := outputs[k := outputs[k].(area := area)];
      var w := outputs[k].active;
      assert Wf(View()) && |spaces| == COUNT;
      hide Wf;
      if spaces[w].layout != Floating {
        Arrange(area, w);
      }
    }

    /** `kum_output_configure_all`, for one output whose position the configuration gives. */
    method OutputConfigure(k: nat, area: Box)
      requires Wf(View()) && k < |outputs|
      modifies this`outputs
      ensures View() == ReplaceArea(old(View()), k, area)
    {
      hide Wf, Tame;
      outputs := outputs[k := outputs[k].(area := area)];
    }

    /** `action_toggle_floating`; `k` is the output under the cursor. */
    method ActionToggleFloating(k: int)
      requires Wf(View()) && (TogglesFloating(View()) ==> 0 <= k < |outputs|)
      modifies this`wins
      ensures View() == ToggleFloating(old(View()), k)
    {
      if focused.None? {
        return;
      }
      var id := focused.value;
      var w := wins[id].ws;
      if spaces[w].layout != Tile {
        return;
      }
      ghost var s := View();
      hide Wf, Tame, Compositor.Arrange;
      wins := wins[id := wins[id].(floating := !wins[id].floating)];
      assert View() == SetFloating(s, id, !s.wins[id].floating);
      Arrange(outputs[k].area, w);
    }

    /** `kum_toplevel_begin_interactive`, as far as it changes layouts. */
    method BeginInteractive(id: Id)
      requires Wf(View()) && id in wins && wins[id].kind == Xdg && OnScreenIfTiled(View(), id)
      modifies this`wins
      ensures View() == Compositor.BeginInteractive(old(View()), id)
    {
      var w := wins[id].ws;
      assert |spaces| == COUNT;
      hide Wf, Tame, OutputFor, Compositor.Arrange;
      if spaces[w].layout == Tile && !wins[id].floating {
        ghost var s := View();
        wins := wins[id := wins[id].(floating := true)];
        assert View() == SetFloating(s, id, true);
        var k := OutputForWorkspace(w);
        Arrange(outputs[k].area, w);
      }
    }

    // -------------------------------------------------------------- src/xwayland.c

    /** `handle_new_xwayland_surface`; `k` is the output under the cursor. */
    method NewXwaylandSurface(k: int, id: Id)
      requires Wf(View()) && id !in wins
      modifies this`wins, this`xsurfaces
      ensures View() == NewX(old(View()), k, id)
    {
      hide Wf, Tame;
      var w: WsIx := if 0 <= k < |outputs| then outputs[k].active else 0;
      wins := wins[id := Window(X11, w, None, false, false, true, false, 0, NOWHERE)];
      xsurfaces := [id] + xsurfaces;
    }

    /** `xwayland_surface_associate`: wlroots has just given the window its surface. */
    method XwaylandAssociate(id: Id, surface: Surface)
      requires Wf(View()) && id in wins && wins[id].kind == X11 && !wins[id].mapped && Unclaimed(View(), surface)
      modifies this`wins
      ensures View() == Associate(old(View()), id, Some(surface))
    {
      hide Wf, Mild, Keen, Unclaimed;
      wins := wins[id := wins[id].(surface := Some(surface))];
    }

    /** `xwayland_surface_dissociate`. */
    method XwaylandDissociate(id: Id)
      requires Wf(View()) && id in wins && wins[id].kind == X11 && !wins[id].mapped
      modifies this`wins
      ensures View() == Associate(old(View()), id, None)
    {
      hide Wf, Mild, Keen;
      wins := wins[id := wins[id].(surface := None)];
    }

    /** `wlr_scene_node_set_position` on a window's own node. */
    method SetPosition(id: Id, x: int, y: int)
      requires Wf(View()) && id in wins
      modifies this`wins
      ensures View() == SetPos(old(View()), id, x, y)
    {
      hide Wf, Tame;
      wins := wins[id := wins[id].(box := wins[id].box.(x := x, y := y))];
    }

    /** The loop over the outputs that stops at the first one. */
    method CentreXwayland(id: Id, obox: Box, own: Box)
      requires Wf(View()) && id in wins
      modifies this`wins
      ensures View() == CentreX(old(View()), id, obox, own)
    {
      hide Wf, Tame;
      if |outputs| > 0 {
        var x := obox.x + CDiv(obox.w - own.w, 2);
        var y := obox.y + CDiv(obox.h - own.h, 2);
        SetPosition(id, x, y);
      }
    }

    /** `wlr_scene_node_set_enabled` on a window's own node. */
    method SetEnabled(id: Id, on: bool)
      requires Wf(View()) && id in wins
      modifies this`wins
      ensures View() == SetShown(old(View()), id, on)
    {
      hide Wf, Tame;
      wins := wins[id := wins[id].(shown := on)];
    }

    method MarkFullscreen(id: Id, on: bool)
      requires Wf(View()) && id in wins
      modifies this`wins
      ensures View() == SetFullscreen(old(View()), id, on)
    {
      hide Wf, Tame;
      wins := wins[id := wins[id].(fullscreen := on)];
    }

    /** `wlr_xdg_toplevel_set_size` and its X11 counterpart. */
    method SetExtent(id: Id, w: int, h: int)
      requires Wf(View()) && id in wins
      modifies this`wins
      ensures View() == SetSize(old(View()), id, w, h)
    {
      hide Wf, Tame;
      wins := wins[id := wins[id].(box := wins[id].box.(w := w, h := h))];
    }

    /** `kum_xwayland_set_fullscreen`, switching it on. */
    method CoverOutput(id: Id, full: Box)
      requires Wf(View()) && id in wins
      modifies this`wins
      ensures View() == CoverX(old(View()), id, full)
    {
      hide Wf, Tame, OutputFor;
      var k := OutputForWorkspace(wins[id].ws);
      if k >= 0 {
        SetPosition(id, full.x, full.y);
        SetExtent(id, full.w, full.h);
      }
      MarkFullscreen(id, true);
    }

    method RestyleXwayland(id: Id, own: Box, u: Rule)
      requires Wf(View()) && id in wins
      modifies this`wins
      ensures View() == RestyleX(old(View()), id, own, u)
    {
      hide Wf, Tame;
      if u.w > 0 || u.h > 0 || u.x != 0 || u.y != 0 {
        var x := if u.x != 0 then u.x else own.x;
        var y := if u.y != 0 then u.y else own.y;
        var w := if u.w > 0 then u.w else own.w;
        var h := if u.h > 0 then u.h else own.h;
        wins := wins[id := wins[id].(box := Box(x, y, w, h))];
      }
    }

    /** The effects of the rule `kum_rules_apply_xwayland` selected. */
    method RulesApplyXwayland(id: Id, own: Box, full: Box, rule: Option<Rule>)
      requires Wf(View()) && id in wins && wins[id].kind == X11
      modifies this
      ensures View() == ApplyRuleX(old(View()), id, own, full, rule)
    {
      hide Wf, Tame, MoveX, RestyleX, CoverX;
      if rule.None? {
        return;
      }
      MoveXwaylandSurface(id, rule.value.workspace);
      RestyleXwayland(id, own, rule.value);
      if rule.value.fullscreen {
        CoverOutput(id, full);
      }
    }

    /** `xwayland_surface_map`; `obox` is the first output's box in the output layout, `full` that of the
        output showing the window's workspace, and `own` the window's own rectangle. */
    method XwaylandMap(id: Id, obox: Box, own: Box, full: Box, rule: Option<Rule>)
      requires Wf(View()) && id in wins && wins[id].kind == X11 && wins[id].surface.Some?
      modifies this
      ensures View() == MapX(old(View()), id, obox, own, full, rule)
    {
      hide Wf, Tame, ApplyRuleX, SetMapped, CentreX, SetShown;
      MarkMapped(id);
      CentreXwayland(id, obox, own);
      RulesApplyXwayland(id, own, full, rule);
      SetEnabled(id, true);
    }

    /** `xwayland_surface_unmap`. */
    method XwaylandUnmap(id: Id)
      requires Wf(View()) && id in wins && wins[id].kind == X11 && wins[id].surface.Some?
      modifies this`focusedX, this`wins
      ensures View() == UnmapX(old(View()), id)
    {
      hide Wf, Tame, Calm;
      if focusedX == Some(id) {
        focusedX := None;
      }
      wins := wins[id := wins[id].(mapped := false)];
    }

    /** `xwayland_surface_destroy`. */
    method XwaylandDestroy(id: Id)
      requires Wf(View()) && id in wins && wins[id].kind == X11
      modifies this`focusedX, this`wins, this`xsurfaces
      ensures View() == DestroyX(old(View()), id)
    {
      hide Wf, Tame;
      if focusedX == Some(id) {
        focusedX := None;
      }
      xsurfaces := Without(xsurfaces, id);
      wins := wins - {id};
    }

    // -------------------------------------------------------------- src/sessionlock.c

    /** `new_session_lock`. */
    method NewSessionLock(lock: Lock)
      modifies this`activeLock, this`locked, this`granted, this`seat
      ensures View() == LockRequest(old(View()), lock)
    {
      if activeLock.Some? || locked {
        return;
      }
      granted := granted + {lock};
      activeLock := Some(lock);
      locked := true;
      seat := None;
    }

    /** `active_lock_unlock`, attached to granted locks only. */
    method ActiveLockUnlock(lock: Lock)
      requires lock in granted
      modifies this`locked, this`seat
      ensures View() == LockUnlock(old(View()), lock)
    {
      locked := false;
      seat := None;
    }

    /** `active_lock_destroy`, attached to granted locks only. */
    method ActiveLockDestroy(lock: Lock)
      requires lock in granted
      modifies this`granted, this`activeLock
      ensures View() == LockDestroy(old(View()), lock)
    {
      granted := granted - {lock};
      activeLock := None;
    }

    // -------------------------------------------------------------- the event loop

    method HandleDesk(e: Events.DeskEvent)
      requires Wf(View()) && Events.DeskEnabled(View(), e)
      modifies this
      ensures View() == Events.DeskStep(old(View()), e)
    {
      hide Wf, Mild, Keen, Connect, Disconnect, SetArea, ReplaceArea, KeySwitch, Compositor.Switch, Scratchpad, KeyMove,
        Compositor.CycleFocus, ToggleFloating, Compositor.SwapMaster, Resize, Compositor.ToggleLayout, ChooseLayout,
        Compositor.FocusFirst, Events.ArrangeFrom;
      match e {
        case Plug(area) => NewOutput(area);
        case Unplug(k) => OutputDestroy(k);
        case AreaChanged(k, area) => RecalculateUsableArea(k, area);
        case PressSwitch(k, index) => ActionSwitchWorkspace(k, index);
        case CommandSwitch(k, to) => Switch(k, to);
        case PressScratchpad(k) => ScratchpadToggle(k);
        case PressMove(to) => ActionMoveToWorkspace(to);
        case PressCycle => CycleFocus();
        case Reconfigured(k, area) => OutputConfigure(k, area);
        case PressFloating(k) => ActionToggleFloating(k);
        case PressSwapMaster => SwapMaster();
        case PressResize(dw, dh, w, h) => TilingResize(dw, dh, w, h);
        case PressLayout(k) => ToggleLayout(k);
        case CommandLayout(k, layout) => LayoutCommand(k, layout);
        case FocusAdjacent(k) => FocusFirst(outputs[k].active);
        case Reload(g, mr) => ReloadConfig(g, mr);
      }
    }

    method HandleWindow(e: Events.WindowEvent)
      requires Wf(View()) && Events.WindowEnabled(View(), e)
      modifies this
      ensures View() == Events.WindowStep(old(View()), e)
    {
      assert Surfaced(wins);
      hide Wf, Mild, Keen, Compositor.FocusToplevel, Compositor.FocusX, Compositor.BeginInteractive, SetShown, SetSize,
        SetPos, SetFullscreen, NewToplevel, MapToplevel, UnmapToplevel, DestroyToplevel, NewX, Associate, MapX, UnmapX, DestroyX;
      match e {
        case ClickXdg(id, surface) => FocusToplevel(id, surface);
        case ClickX11(id) => FocusX(id);
        case Grab(id) => BeginInteractive(id);
        case Reshape(id, box, shown, fullscreen) =>
          SetPosition(id, box.x, box.y);
          SetExtent(id, box.w, box.h);
          SetEnabled(id, shown);
          MarkFullscreen(id, fullscreen);
        case XdgNew(k, id, surface) => NewXdgToplevel(k, id, surface);
        case XdgMap(id, w, h, rule) => ToplevelMap(id, w, h, rule);
        case XdgUnmap(id) => ToplevelUnmap(id);
        case XdgDestroy(id) => ToplevelDestroy(id);
        case X11New(k, id) => NewXwaylandSurface(k, id);
        case X11Associate(id, surface) => XwaylandAssociate(id, surface);
        case X11Dissociate(id) => XwaylandDissociate(id);
        case X11Map(id, obox, own, full, rule) => XwaylandMap(id, obox, own, full, rule);
        case X11Unmap(id) => XwaylandUnmap(id);
        case X11Destroy(id) => XwaylandDestroy(id);
      }
    }

    /** Keyboards and focus taken elsewhere change the seat without any of the handlers above. */
    method HandleSeat(e: Events.SeatEvent)
      requires Wf(View()) && Events.SeatEnabled(View(), e)
      modifies this
      ensures View() == Events.SeatStep(old(View()), e)
    {
      match e {
        case SeatTaken(t) => seat := t;
        case Keyboard(present) => keyboard := present;
        case LockNew(lock) => NewSessionLock(lock);
        case LockDone(lock) => ActiveLockUnlock(lock);
        case LockGone(lock) => ActiveLockDestroy(lock);
      }
    }

    /** Running the handlers on any possible sequence of events ends in the state the run describes, and
        the invariant holds there. */
    method Run(es: seq<Events.Event>)
      requires Events.Inv(View()) && Events.Possible(View(), es)
      modifies this
      ensures View() == Events.After(old(View()), es) && Events.Inv(View())
    {
      ghost var start := View();
      Events.RunKeeps(start, es);
      var k := 0;
      assert es[0..] == es;
      hide Wf, Events.Inv, Events.DeskStep, Events.WindowStep, Events.SeatStep,
        Events.DeskEnabled, Events.WindowEnabled, Events.SeatEnabled;
      while k < |es|
        invariant 0 <= k <= |es| && Wf(View()) && Events.Possible(View(), es[k..])
        invariant Events.After(View(), es[k..]) == Events.After(start, es)
      {
        assert es[k..][1..] == es[k + 1..];
        match es[k] {
          case Desk(d) => HandleDesk(d);
          case Win(w) => HandleWindow(w);
          case Seat(t) => HandleSeat(t);
        }
        k := k + 1;
      }
    }
  }
}
