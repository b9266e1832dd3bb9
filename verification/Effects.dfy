/** What the single handlers do to outputs, workspaces, windows and the focus. */
module Effects {
  import opened Prelude
  import opened Tiling
  import opened Compositor
  import opened Placement
  import opened Outcomes
  import opened Tidiness
  import Events

  // ---------------------------------------------------------------- choosing a window

  lemma {:induction false} FirstMappedFirst(wins: Windows, ids: seq<Id>, x: Id)
    requires (forall id :: id in ids ==> id in wins) && x in ids && wins[x].mapped
    ensures FirstMapped(wins, ids).Some? && IndexOf(ids, FirstMapped(wins, ids).value) <= IndexOf(ids, x)
  {
    if !wins[ids[0]].mapped {
      assert ids == [ids[0]] + ids[1..];
      FirstMappedFirst(wins, ids[1..], x);
    }
  }

  lemma {:induction false} FirstMappedOnFirst(wins: Windows, ids: seq<Id>, w: WsIx, x: Id)
    requires (forall id :: id in ids ==> id in wins) && x in ids && wins[x].mapped && wins[x].ws == w
    ensures FirstMappedOn(wins, ids, w).Some? && IndexOf(ids, FirstMappedOn(wins, ids, w).value) <= IndexOf(ids, x)
  {
    if !(wins[ids[0]].mapped && wins[ids[0]].ws == w) {
      assert ids == [ids[0]] + ids[1..];
      FirstMappedOnFirst(wins, ids[1..], w, x);
    }
  }

  /** A workspace hands the focus to the foremost mapped window of its own list, and to an X11 window, the
      foremost again, only if there is none. */
  lemma TargetIsForemost(s: State, w: WsIx, x: Id)
    requires Wf(s) && x in s.wins && s.wins[x].ws == w && s.wins[x].mapped
    ensures FocusTarget(s, w).Some?
    ensures var t := FocusTarget(s, w).value; var list := s.spaces[w].list;
      if s.wins[x].kind == Xdg then t in list && x in list && IndexOf(list, t) <= IndexOf(list, x)
      else
        || s.wins[t].kind == Xdg
        || (t in s.xsurfaces && x in s.xsurfaces && IndexOf(s.xsurfaces, t) <= IndexOf(s.xsurfaces, x))
  {
    hide Surfaced, FocusLive, IndexOf;
    if s.wins[x].kind == Xdg {
      assert x in s.spaces[w].list;
      FirstMappedFirst(s.wins, s.spaces[w].list, x);
    } else {
      assert x in s.xsurfaces;
      FirstMappedOnFirst(s.wins, s.xsurfaces, w, x);
    }
  }

  lemma IndexOfAppend(front: seq<Id>, last: Id, x: Id)
    requires x in front
    ensures x in front + [last] && IndexOf(front + [last], x) == IndexOf(front, x)
  {
    var all := front + [last];
    var k := IndexOf(front, x);
    assert all[k] == x;
  }

  lemma {:induction false} LeastSerialFirst(wins: Windows, ids: seq<Id>, x: Id)
    requires (forall id :: id in ids ==> id in wins) && x in ids && wins[x].mapped
    ensures var t := LeastSerial(wins, ids);
      t.Some? && t.value in ids && (wins[t.value].serial == wins[x].serial ==> IndexOf(ids, t.value) <= IndexOf(ids, x))
  {
    var front, last := ids[..|ids| - 1], ids[|ids| - 1];
    assert ids == front + [last];
    var t := LeastSerial(wins, ids);
    var best := LeastSerial(wins, front);
    hide IndexOf;
    if x in front {
      LeastSerialFirst(wins, front, x);
      IndexOfAppend(front, last, x);
    }
    if best.Some? {
      IndexOfAppend(front, last, best.value);
    }
  }

  /** Of several windows focused equally long ago, as all that never were, cycling takes the first one: xdg
      windows before X11 ones. */
  lemma PickIsFirst(s: State, x: Id)
    requires Wf(s) && x in s.wins && s.wins[x].mapped
    ensures var t := CyclePick(s); var all := s.toplevels + s.xsurfaces;
      && t.Some? && t.value in all && x in all
      && (s.wins[t.value].serial == s.wins[x].serial ==> IndexOf(all, t.value) <= IndexOf(all, x))
  {
    hide Surfaced, FocusLive, IndexOf;
    assert x in s.toplevels + s.xsurfaces;
    LeastSerialFirst(s.wins, s.toplevels + s.xsurfaces, x);
  }

  // ---------------------------------------------------------------- switching

  lemma ShownSame(s: State, k: nat, index: WsIx)
    requires Wf(s) && SwitchMoves(s, k, index)
    ensures var r := Shown(s, k, index);
      && r.focused == s.focused && r.focusedX == s.focusedX && r.seat == s.seat && r.locked == s.locked
      && r.wins.Keys == s.wins.Keys
      && forall x :: x in s.wins ==> r.wins[x] == s.wins[x].(box := r.wins[x].box)
  {
    hide Wf, Tame;
  }

  lemma DroppedFocus(s: State, w: WsIx)
    requires Wf(s)
    ensures var r := DropFocusOn(s, w);
      if FocusOn(s, w) then r == s.(focused := None, focusedX := None, seat := None) else r == s
  {
    hide Linked, Surfaced, Tame;
  }

  lemma FocusFirstNothing(b: State, w: WsIx)
    requires Wf(b) && (FocusTarget(b, w).None? || b.locked)
    ensures FocusFirst(b, w) == b
  {
    hide Wf, Tame, FocusTarget;
  }

  /** After a switch to a workspace without a mapped window, the focus is nowhere if it was on the workspace
      that was left, and else where it was. */
  lemma SwitchToEmpty(s: State, k: int, index: int)
    requires Wf(s) && SwitchMoves(s, k, index)
    requires forall x :: x in s.wins && s.wins[x].ws == index ==> !s.wins[x].mapped
    ensures var r := Switch(s, k, index);
      if FocusOn(s, s.outputs[k].active) then r.focused == None && r.focusedX == None && r.seat == None
      else r.focused == s.focused && r.focusedX == s.focusedX && r.seat == s.seat
  {
    var prev := s.outputs[k].active;
    var a := Shown(s, k, index);
    var b := DropFocusOn(a, prev);
    ShownSame(s, k, index);
    DroppedFocus(a, prev);
    assert FocusTarget(b, index).None?;
    FocusFirstNothing(b, index);
    hide Linked, Surfaced, Tame, Shown, DropFocusOn, FocusFirst;
  }

  // ---------------------------------------------------------------- moving

  /** Moving an X11 window changes its workspace and nothing else about it but its visibility: its node is
      disabled where no output shows the workspace. It loses the focus. */
  lemma MoveXEffect(s: State, id: Id, index: WsIx)
    requires Wf(s) && id in s.wins && s.wins[id].kind == X11 && s.wins[id].ws != index
    ensures var r := MoveX(s, id, index);
      && r.wins.Keys == s.wins.Keys && r.wins[id].ws == index
      && r.wins[id] == s.wins[id].(ws := index, shown := r.wins[id].shown)
      && (r.wins[id].shown <==> s.wins[id].shown && OutputFor(s.outputs, index) >= 0)
      && (forall x :: x in s.wins && x != id ==> r.wins[x] == s.wins[x])
      && r.outputs == s.outputs && r.spaces == s.spaces && r.xsurfaces == s.xsurfaces
      && r.focusedX != Some(id) && r.focused == s.focused
      && (s.focusedX != Some(id) ==> r.focusedX == s.focusedX && r.seat == s.seat)
      && (s.focusedX == Some(id) ==> r.seat == None)
  {
    hide Wf, Tame;
  }

  lemma RehomedSame(s: State, id: Id, index: WsIx)
    requires Wf(s) && id in s.wins && s.wins[id].kind == Xdg && s.wins[id].ws != index
    ensures var a := Rehomed(s, id, index);
      && a.outputs == s.outputs && a.focused == s.focused && a.focusedX == s.focusedX
      && a.seat == s.seat && a.locked == s.locked && a.wins.Keys == s.wins.Keys
      && forall x :: x in s.wins ==> a.wins[x].mapped == s.wins[x].mapped && a.wins[x].kind == s.wins[x].kind
  {
    hide Wf, Tame, Tidy, Land;
  }

  lemma ReleasedTo(a: State, id: Id, home: WsIx)
    requires Wf(a) && a.focused == Some(id) && a.wins[id].ws != home
    ensures var r := Release(a, id, home);
      if !a.locked && OutputFor(a.outputs, home) >= 0 && exists x :: x in a.wins && a.wins[x].ws == home && a.wins[x].mapped
      then FocusOn(r, home)
      else r.focused == None && r.focusedX == None && r.seat == None
  {
    assert a.focusedX == None;
    var b := Unfocus(a);
    if OutputFor(a.outputs, home) >= 0 {
      var t := FocusTarget(b, home);
      FocusFirstEffect(b, home, a.wins[id].ws);
      assert t.Some? ==> b.wins[t.value].surface.Some?;
      hide Linked, Surfaced, Tame, FocusFirst, FocusTarget;
      if t.None? || a.locked {
        assert FocusFirst(b, home) == b by {
          FocusFirstNothing(b, home);
        }
      }
    } else {
      hide Linked, Surfaced, Tame;
    }
  }

  lemma ReleaseNothing(a: State, id: Id, home: WsIx)
    requires Wf(a) && id in a.wins && a.focused != Some(id)
    ensures Release(a, id, home) == a
  {
    hide Wf, Tame;
  }

  lemma RehomedWs(s: State, id: Id, index: WsIx)
    requires Wf(s) && id in s.wins && s.wins[id].kind == Xdg && s.wins[id].ws != index
    ensures var a := Rehomed(s, id, index);
      a.wins.Keys == s.wins.Keys && forall x :: x in s.wins ==> a.wins[x].ws == if x == id then index else s.wins[x].ws
  {
    var m := Relink(s, id, index);
    var l := Land(m, id, index);
    hide Wf, Tame, Relink, Land, Tidy;
    RehomedSpares(s, m, l, Tidy(l, s.wins[id].ws), id, index);
  }

  /** A window that had the focus loses it by moving away: to the first mapped window left behind, if its
      old workspace is shown and has one and the session is not locked, and else to no window at all. */
  lemma MoveReleases(s: State, id: Id, index: WsIx)
    requires Wf(s) && id in s.wins && s.wins[id].kind == Xdg && s.wins[id].ws != index
    ensures var r := MoveToplevel(s, id, index); var home := s.wins[id].ws;
      && (s.focused != Some(id) ==> r.focused == s.focused && r.focusedX == s.focusedX && r.seat == s.seat)
      && (s.focused == Some(id) ==>
            if !s.locked && OutputFor(s.outputs, home) >= 0 &&
               exists x :: x in s.wins && x != id && s.wins[x].ws == home && s.wins[x].mapped
            then FocusOn(r, home)
            else r.focused == None && r.focusedX == None && r.seat == None)
  {
    var home := s.wins[id].ws;
    var a := Rehomed(s, id, index);
    RehomedSame(s, id, index);
    MoveLaysOut(s, id, index);
    RehomedWs(s, id, index);
    hide Linked, Surfaced, FocusLive, Tame, Rehomed, Release, LaidOut, OutputFor;
    assert MoveToplevel(s, id, index) == Release(a, id, home);
    if s.focused == Some(id) {
      ReleasedTo(a, id, home);
      if x :| x in s.wins && x != id && s.wins[x].ws == home && s.wins[x].mapped {
        assert a.wins[x].ws == home && a.wins[x].mapped;
      }
    } else {
      ReleaseNothing(a, id, home);
    }
  }

  /** The move key moves the focused window, of either kind, and no other changes its workspace. */
  lemma KeyMoveEffect(s: State, index: WsIx)
    requires Wf(s)
    ensures var r := KeyMove(s, index);
      var id := if s.focused.Some? then s.focused else s.focusedX;
      && (id == None ==> r == s)
      && (id.Some? ==>
            && r.wins.Keys == s.wins.Keys
            && r.wins[id.value].ws == index
            && (forall x :: x in s.wins && x != id.value ==> r.wins[x].ws == s.wins[x].ws)
            && (s.wins[id.value].ws != index ==> r.focused != id && r.focusedX != id))
  {
    if s.focused.Some? {
      if s.wins[s.focused.value].ws != index {
        MoveLaysOut(s, s.focused.value, index);
        MoveReleases(s, s.focused.value, index);
      }
      hide Linked, Surfaced, Tame;
    } else if s.focusedX.Some? {
      hide Linked, Surfaced, Tame, MoveX;
      if s.wins[s.focusedX.value].ws != index {
        MoveXEffect(s, s.focusedX.value, index);
      } else {
        assert MoveX(s, s.focusedX.value, index) == s;
      }
    }
  }

  lemma LandShows(s: State, id: Id, w: WsIx)
    requires Wf(s) && id in s.wins
    ensures var r := Land(s, id, w);
      && r.wins[id].shown == (s.wins[id].shown && OutputFor(s.outputs, w) >= 0)
      && r.wins[id].floating == s.wins[id].floating && r.wins[id].fullscreen == s.wins[id].fullscreen
  {
    TidyLaysOut(s, w);
    hide Wf, Tame, LaidOut, OutputFor, Tidy;
  }

  /** A moved window disappears with a hidden workspace and stays as visible as it was on a shown one. */
  lemma MoveShows(s: State, id: Id, index: WsIx)
    requires Wf(s) && id in s.wins && s.wins[id].kind == Xdg && s.wins[id].ws != index
    ensures var r := MoveToplevel(s, id, index);
      id in r.wins && (r.wins[id].shown <==> s.wins[id].shown && OutputFor(s.outputs, index) >= 0)
      && r.wins[id].floating == s.wins[id].floating && r.wins[id].fullscreen == s.wins[id].fullscreen
  {
    var m := Relink(s, id, index);
    var l := Land(m, id, index);
    var a := Rehomed(s, id, index);
    LandShows(m, id, index);
    TidyLaysOut(l, s.wins[id].ws);
    ReleaseEffect(a, id, s.wins[id].ws);
    hide Linked, Surfaced, FocusLive, Tame, LaidOut, OutputFor, Land, Tidy, Release;
  }

  lemma SwitchKeepsFlags(s: State, k: int, index: int, id: Id)
    requires Wf(s) && SwitchMoves(s, k, index) && id in s.wins
    ensures var r := Switch(s, k, index);
      id in r.wins && r.wins[id].shown == s.wins[id].shown && r.wins[id].mapped == s.wins[id].mapped
      && r.wins[id].ws == s.wins[id].ws
  {
    ShownSame(s, k, index);
    hide Wf, Tame, Shown, DropFocusOn, FocusFirst;
  }

  /** A window moved to a hidden workspace stays invisible: showing the workspace afterwards enables the
      workspace's tree, but nothing enables the window's own node again. */
  lemma MovedStaysHidden(s: State, id: Id, index: WsIx, k: nat)
    requires Wf(s) && id in s.wins && s.wins[id].kind == Xdg && s.wins[id].mapped && s.wins[id].ws != index
    requires OutputFor(s.outputs, index) < 0 && k < |s.outputs|
    ensures var r := Switch(MoveToplevel(s, id, index), k, index);
      && |r.outputs| == |s.outputs| && r.outputs[k].active == index
      && id in r.wins && r.wins[id].mapped && r.wins[id].ws == index && !r.wins[id].shown
  {
    var a := MoveToplevel(s, id, index);
    MoveShows(s, id, index);
    MoveLaysOut(s, id, index);
    MoveFrame(s, id, index);
    hide Wf, Tame, MoveToplevel, Switch, LaidOut;
    SwitchOutputs(a, k, index);
    SwitchKeepsFlags(a, k, index, id);
  }

  // ---------------------------------------------------------------- outputs

  /** A new output heads the list with its area and the workspace found free; nothing else on screen changes. */
  lemma ConnectEffect(s: State, area: Box)
    requires Wf(s) && Exclusive(s.outputs, s.spaces)
    ensures var r := Connect(s, area);
      && |r.outputs| == |s.outputs| + 1 && r.outputs[0].area == area && r.outputs[1..] == s.outputs
      && (|s.outputs| < COUNT ==> OutputFor(s.outputs, r.outputs[0].active) == -1)
      && r.wins == s.wins && r.focused == s.focused && r.focusedX == s.focusedX && r.seat == s.seat
  {
    Events.FreeWorkspace(s.outputs);
    hide Wf, OutputFor;
  }

  /** An unplugged output is gone; the first one left shows what it showed, and the others are unchanged. */
  lemma DisconnectOutputs(s: State, k: nat)
    requires Wf(s) && Exclusive(s.outputs, s.spaces) && k < |s.outputs|
    ensures var r := Disconnect(s, k);
      && |r.outputs| == |s.outputs| - 1
      && forall i :: 0 <= i < |r.outputs| ==>
           var was := s.outputs[if i < k then i else i + 1];
           r.outputs[i] == if i == 0 then was.(active := s.outputs[k].active) else was
  {
    Events.DisconnectExclusive(s, k);
    hide Wf, Disconnect, Exclusive;
  }

  lemma TakeOverSame(s: State, w: WsIx)
    requires Wf(s) && |s.outputs| > 0
    ensures var r := TakeOver(s, w);
      && r.seat == s.seat && r.locked == s.locked && r.wins.Keys == s.wins.Keys
      && forall x :: x in s.wins ==>
           r.wins[x].mapped == s.wins[x].mapped && r.wins[x].ws == s.wins[x].ws && r.wins[x].surface == s.wins[x].surface
  {
    hide Surfaced, FocusLive, Tame, Mild, Keen;
  }

  lemma FocusFirstTakes(s: State, w: WsIx, x: Id)
    requires Wf(s) && !s.locked && x in s.wins && s.wins[x].ws == w && s.wins[x].mapped
    requires forall y :: y in s.wins && s.wins[y].ws == w && s.wins[y].surface.Some? ==> s.wins[y].surface != s.seat
    ensures FocusOn(FocusFirst(s, w), w)
  {
    var t := FocusTarget(s, w);
    assert t.Some?;
    FocusEffect(s, t.value);
    assert s.wins[t.value].surface.Some?;
    hide Linked, Surfaced, FocusLive, Tame, FocusTarget;
  }

  /** What an unplugged output showed goes to the first remaining one, and with it the focus, if the session
      is unlocked and the seat is not on one of the workspace's windows already. */
  lemma DisconnectFocuses(s: State, k: nat, x: Id)
    requires Wf(s) && Exclusive(s.outputs, s.spaces) && k < |s.outputs| && |s.outputs| >= 2 && !s.locked
    requires x in s.wins && s.wins[x].ws == s.outputs[k].active && s.wins[x].mapped
    requires forall y :: y in s.wins && s.wins[y].ws == s.outputs[k].active && s.wins[y].surface.Some? ==>
      s.wins[y].surface != s.seat
    ensures var r := Disconnect(s, k);
      && |r.outputs| == |s.outputs| - 1 && r.outputs[0].active == s.outputs[k].active
      && FocusOn(r, s.outputs[k].active)
  {
    var w := s.outputs[k].active;
    Events.DisconnectExclusive(s, k);
    var d := s.(outputs := s.outputs[..k] + s.outputs[k + 1..]);
    assert Wf(d);
    var a := DropXdgFocusOn(d, w);
    var b := TakeOver(a, w);
    TakeOverSame(a, w);
    assert Disconnect(s, k) == FocusFirst(b, w);
    hide Linked, FocusLive, Tame, Mild, Keen, TakeOver, FocusFirst, Exclusive, OutputFor;
    assert b.wins[x].mapped && b.wins[x].ws == w;
    FocusFirstTakes(b, w, x);
  }

  /** Without another output, the focus pointer of an xdg window on its workspace is dropped. */
  lemma DisconnectLast(s: State)
    requires Wf(s) && |s.outputs| == 1
    ensures var r := Disconnect(s, 0); var w := s.outputs[0].active;
      && r.outputs == [] && !r.spaces[w].enabled && r.wins == s.wins
      && if s.focused.Some? && s.wins[s.focused.value].ws == w then r.focused == None && r.seat == None
         else r.focused == s.focused && r.seat == s.seat
  {
    hide Wf, Mild, Keen;
  }

  /** A new area is one output's alone. */
  lemma SetAreaEffect(s: State, k: nat, area: Box)
    requires Wf(s) && k < |s.outputs|
    ensures SetArea(s, k, area).outputs == ReplaceArea(s, k, area).outputs
    ensures var r := ReplaceArea(s, k, area);
      && |r.outputs| == |s.outputs| && r.outputs[k] == s.outputs[k].(area := area) && r.wins == s.wins
      && forall i :: 0 <= i < |s.outputs| && i != k ==> r.outputs[i] == s.outputs[i]
  {
    hide Wf, Tame;
  }

  // ---------------------------------------------------------------- layouts, floating and sizes

  lemma LayoutsKept(s: State, area: Box, w: WsIx)
    requires Wf(s)
    ensures var r := Arrange(s, area, w);
      r.spaces == s.spaces && r.focused == s.focused && r.wins.Keys == s.wins.Keys
      && forall x :: x in s.wins ==> r.wins[x] == s.wins[x].(box := r.wins[x].box)
  {
    hide Wf, Tame;
  }

  /** Toggling makes a floating workspace tiled and any other one floating, and changes no other workspace;
      doing it twice restores the layout exactly if that was not the monocle one. */
  lemma ToggleLayoutTwice(s: State, k: int)
    requires Wf(s) && 0 <= k < |s.outputs|
    ensures var once := ToggleLayout(s, k); var twice := ToggleLayout(once, k); var w := s.outputs[k].active;
      && once.spaces[w].layout == (if s.spaces[w].layout == Floating then Tile else Floating)
      && (forall v :: 0 <= v < COUNT && v != w ==> once.spaces[v] == s.spaces[v])
      && (twice.spaces[w].layout == s.spaces[w].layout <==> s.spaces[w].layout != Monocle)
  {
    var w := s.outputs[k].active;
    var layout := if s.spaces[w].layout == Floating then Tile else Floating;
    LayoutsKept(SetLayout(s, w, layout), s.outputs[k].area, w);
    var once := ToggleLayout(s, k);
    assert once.spaces == SetLayout(s, w, layout).spaces && once.outputs == s.outputs;
    LayoutsKept(SetLayout(once, w, if layout == Floating then Tile else Floating), s.outputs[k].area, w);
    hide Linked, Surfaced, FocusLive, Tame, Calm, Arrange;
  }

  lemma ToggledOnce(s: State, k: nat)
    requires Wf(s) && k < |s.outputs| && TogglesFloating(s)
    ensures var id := s.focused.value; var r := ToggleFloating(s, k);
      && r.wins.Keys == s.wins.Keys && r.wins[id].floating == !s.wins[id].floating
      && (forall x :: x in s.wins && x != id ==> r.wins[x].floating == s.wins[x].floating)
      && TogglesFloating(r) && r.outputs == s.outputs && r.focused == s.focused
  {
    assert |s.spaces| == COUNT && s.focused.value in s.wins;
    hide Wf, Tame, Arrange;
    var id := s.focused.value;
    var a := SetFloating(s, id, !s.wins[id].floating);
    LayoutsKept(a, s.outputs[k].area, s.wins[id].ws);
    assert a.wins[id] == s.wins[id].(floating := !s.wins[id].floating);
  }

  /** Toggling the focused window's floating flag on a tiled workspace turns it round, and no other window's;
      doing it twice restores it. Without focus, or on another layout, nothing happens. */
  lemma ToggleFloatingTwice(s: State, k: nat)
    requires Wf(s) && k < |s.outputs|
    ensures !TogglesFloating(s) ==> ToggleFloating(s, k) == s
    ensures TogglesFloating(s) ==>
      var id := s.focused.value; var once := ToggleFloating(s, k);
      && once.wins.Keys == s.wins.Keys && once.wins[id].floating == !s.wins[id].floating
      && (forall x :: x in s.wins && x != id ==> once.wins[x].floating == s.wins[x].floating)
      && TogglesFloating(once) && once.outputs == s.outputs
      && ToggleFloating(once, k).wins[id].floating == s.wins[id].floating
  {
    if TogglesFloating(s) {
      ToggledOnce(s, k);
      ToggledOnce(ToggleFloating(s, k), k);
    }
    hide Wf, Tame, ToggleFloating;
  }

  /** Laying out leaves windows alone that are not mapped, or float, or live elsewhere. */
  lemma TidySpares(s: State, w: WsIx, id: Id)
    requires Wf(s) && id in s.wins
    requires !s.wins[id].mapped || s.wins[id].floating || s.wins[id].ws != w || s.wins[id].kind == X11
    ensures Tidy(s, w).wins[id] == s.wins[id]
  {
    if OutputFor(s.outputs, w) >= 0 && s.spaces[w].layout != Floating {
      var ids := Tiled(s.wins, s.spaces[w].list);
      assert id !in ids;
    }
    hide Surfaced, FocusLive, Tame, OutputFor;
  }

  /** Grabbing a window of a tiled workspace floats it, and it alone; elsewhere nothing happens. */
  lemma GrabEffect(s: State, id: Id)
    requires Wf(s) && id in s.wins && s.wins[id].kind == Xdg && OnScreenIfTiled(s, id)
    ensures var r := BeginInteractive(s, id);
      if s.spaces[s.wins[id].ws].layout != Tile then r == s
      else
        && r.wins.Keys == s.wins.Keys && r.wins[id].floating && r.wins[id].ws == s.wins[id].ws
        && r.wins[id].box == s.wins[id].box
        && forall x :: x in s.wins && x != id ==> r.wins[x].floating == s.wins[x].floating
  {
    var w := s.wins[id].ws;
    var a := SetFloating(s, id, true);
    TidyLaysOut(a, w);
    TidySpares(a, w, id);
    hide Linked, Surfaced, FocusLive, Tame, LaidOut, OutputFor, Tidy;
  }

  /** Off tiled workspaces a resize changes the focused window's size alone, by the step asked for, down to
      120 by 80 pixels. */
  lemma ResizeFloating(s: State, dw: int, dh: int, w: int, h: int)
    requires Wf(s) && s.focused.Some? && s.spaces[s.wins[s.focused.value].ws].layout != Tile
    ensures var id := s.focused.value; var r := Resize(s, dw, dh, w, h); var b := r.wins[id].box;
      && b.x == s.wins[id].box.x && b.y == s.wins[id].box.y
      && b.w >= 120 && b.w >= w + dw && (b.w == 120 || b.w == w + dw)
      && b.h >= 80 && b.h >= h + dh && (b.h == 80 || b.h == h + dh)
      && r.ratio == s.ratio && forall x :: x in s.wins && x != id ==> r.wins[x] == s.wins[x]
  {
    hide Linked, Surfaced, Tame;
  }

  // ---------------------------------------------------------------- windows come and go

  /** A new window opens, unmapped and not floating, on the workspace of the output under the cursor, or on
      workspace 0, at the head of both lists; nothing else changes. */
  lemma NewEffect(s: State, k: int, id: Id, surface: Surface)
    requires Wf(s) && id !in s.wins && Unclaimed(s, surface)
    ensures var r := NewToplevel(s, k, id, surface); var w := if 0 <= k < |s.outputs| then s.outputs[k].active else 0;
      && id in r.wins && r.wins[id].kind == Xdg && r.wins[id].ws == w && r.wins[id].surface == Some(surface)
      && !r.wins[id].mapped && !r.wins[id].floating && !r.wins[id].fullscreen
      && r.spaces[w].list == [id] + s.spaces[w].list && r.toplevels == [id] + s.toplevels
      && (forall v :: 0 <= v < COUNT && v != w ==> r.spaces[v] == s.spaces[v])
      && (forall x :: x in s.wins ==> x in r.wins && r.wins[x] == s.wins[x])
      && r.outputs == s.outputs && r.focused == s.focused && r.focusedX == s.focusedX && r.seat == s.seat
  {
    hide Linked, Surfaced, FocusLive, Mild, Keen, Exclusive, Unclaimed;
  }

  lemma NewXEffect(s: State, k: int, id: Id)
    requires Wf(s) && id !in s.wins
    ensures var r := NewX(s, k, id); var w := if 0 <= k < |s.outputs| then s.outputs[k].active else 0;
      && id in r.wins && r.wins[id].kind == X11 && r.wins[id].ws == w && r.wins[id].surface == None
      && !r.wins[id].mapped && !r.wins[id].floating && !r.wins[id].fullscreen
      && r.xsurfaces == [id] + s.xsurfaces && r.spaces == s.spaces
      && (forall x :: x in s.wins ==> x in r.wins && r.wins[x] == s.wins[x])
      && r.outputs == s.outputs && r.focused == s.focused && r.focusedX == s.focusedX && r.seat == s.seat
  {
    hide Wf, Tame;
  }

  /** An X11 window gains or loses its surface and nothing else changes. */
  lemma AssociateEffect(s: State, id: Id, surface: Option<Surface>)
    requires Wf(s) && id in s.wins && s.wins[id].kind == X11 && !s.wins[id].mapped
    requires surface.Some? ==> Unclaimed(s, surface.value)
    ensures var r := Associate(s, id, surface);
      r.wins[id] == s.wins[id].(surface := surface) && r == s.(wins := s.wins[id := r.wins[id]])
  {
    hide Wf, Mild, Keen, Exclusive;
  }

  lemma UnmappedState(s: State, id: Id) returns (b: State)
    requires Wf(s) && id in s.wins && s.wins[id].kind == Xdg
    ensures Wf(b) && b.wins == s.wins[id := s.wins[id].(mapped := false)]
    ensures b.focused == if s.focused == Some(id) then None else s.focused
    ensures b.spaces == s.spaces && b.outputs == s.outputs
    ensures UnmapToplevel(s, id) == if s.spaces[s.wins[id].ws].layout == Tile then Tidy(b, s.wins[id].ws) else b
  {
    hide Linked, Tame, Tidy;
    b := SetMapped(if s.focused == Some(id) then s.(focused := None) else s, id, false);
  }

  /** Tidying a workspace moves and resizes windows of its own and does nothing else. */
  lemma TidyEffect(s: State, w: WsIx)
    requires Wf(s)
    ensures var r := Tidy(s, w);
      && r.wins.Keys == s.wins.Keys && r == s.(wins := r.wins)
      && (forall x :: x in s.wins ==> r.wins[x] == s.wins[x].(box := r.wins[x].box))
      && (forall x :: x in s.wins && s.wins[x].ws != w ==> r.wins[x] == s.wins[x])
  {
    TidyLaysOut(s, w);
    hide Surfaced, FocusLive, Tame, LaidOut, OutputFor, Tidy;
    forall x | x in s.wins && s.wins[x].ws != w
      ensures x !in s.spaces[w].list
    {
    }
  }

  /** Unmapping takes a window out of the layout and drops its focus pointer; other windows stay as they are
      but for their rectangles on the same workspace. */
  lemma UnmapEffect(s: State, id: Id)
    requires Wf(s) && id in s.wins && s.wins[id].kind == Xdg
    ensures var r := UnmapToplevel(s, id);
      && r.wins.Keys == s.wins.Keys && r.wins[id] == s.wins[id].(mapped := false)
      && r.focused == (if s.focused == Some(id) then None else s.focused)
      && (forall x :: x in s.wins && x != id ==> r.wins[x] == s.wins[x].(box := r.wins[x].box))
      && (forall x :: x in s.wins && s.wins[x].ws != s.wins[id].ws ==> r.wins[x] == s.wins[x])
  {
    hide Wf, Tame, OutputFor, Tidy, UnmapToplevel;
    var b := UnmappedState(s, id);
    TidyEffect(b, s.wins[id].ws);
    TidySpares(b, s.wins[id].ws, id);
    assert forall x :: x in s.wins && x != id ==> b.wins[x] == s.wins[x];
  }

  /** Unmapping an X11 window drops its focus pointer and changes nothing else. */
  lemma UnmapXEffect(s: State, id: Id)
    requires Wf(s) && id in s.wins && s.wins[id].kind == X11 && s.wins[id].surface.Some?
    ensures var r := UnmapX(s, id);
      && r == s.(wins := s.wins[id := r.wins[id]], focusedX := r.focusedX)
      && r.wins[id] == s.wins[id].(mapped := false)
      && r.focusedX == if s.focusedX == Some(id) then None else s.focusedX
  {
    hide Linked, Surfaced, Tame;
  }

  /** A workspace that does not exist, or is the window's own, moves nothing. */
  lemma StaysPut(s: State, id: Id, index: int)
    requires Wf(s) && id in s.wins && s.wins[id].kind == Xdg && (index < 0 || index >= COUNT || index == s.wins[id].ws)
    ensures MoveToplevel(s, id, index) == s
  {
    hide Wf, Tame;
  }

  lemma MovedWindow(s: State, id: Id, index: int)
    requires Wf(s) && id in s.wins && s.wins[id].kind == Xdg
    ensures var r := MoveToplevel(s, id, index);
      && r.wins[id].ws == (if 0 <= index < COUNT then index else s.wins[id].ws)
      && r.wins[id].floating == s.wins[id].floating && r.wins[id].fullscreen == s.wins[id].fullscreen
      && (s.focused != Some(id) ==> r.focused == s.focused && r.focusedX == s.focusedX && r.seat == s.seat)
  {
    hide Wf, Tame, MoveToplevel, FocusOn, LaidOut;
    if 0 <= index < COUNT && index != s.wins[id].ws {
      MoveLaysOut(s, id, index);
      MoveShows(s, id, index);
      MoveReleases(s, id, index);
    } else {
      StaysPut(s, id, index);
    }
  }

  /** What a rule is to make of a window that is `was` and stands at `at` when it is restyled. */
  ghost predicate FollowsRule(was: Window, at: Box, r: Window, u: Rule) {
    && r.ws == Destination(u, was.ws)
    && r.floating == (was.floating || u.floating) && r.fullscreen == (was.fullscreen || u.fullscreen)
    && (if u.w > 0 && u.h > 0 then r.box.w == u.w && r.box.h == u.h else r.box.w == at.w && r.box.h == at.h)
    && (if u.x != 0 || u.y != 0 then r.box.x == u.x && r.box.y == u.y else r.box.x == at.x && r.box.y == at.y)
  }

  lemma RestyledFollows(was: Window, win: Window, u: Rule)
    requires win.ws == Destination(u, was.ws) && win.floating == was.floating && win.fullscreen == was.fullscreen
    ensures FollowsRule(was, win.box, Restyled(win, u), u)
  {
  }

  /** A rule sends the window to its workspace, floats it, makes it fullscreen, and gives it a size, if both
      numbers are positive, and a position, if one of them is not 0. */
  lemma RuleEffect(s: State, id: Id, u: Rule)
    requires Wf(s) && id in s.wins && s.wins[id].kind == Xdg
    ensures var r := ApplyRule(s, id, Some(u)); var moved := MoveToplevel(s, id, u.workspace);
      && id in moved.wins && id in r.wins
      && FollowsRule(s.wins[id], moved.wins[id].box, r.wins[id], u)
      && r == moved.(wins := moved.wins[id := r.wins[id]])
      && (s.focused != Some(id) ==> r.focused == s.focused && r.focusedX == s.focusedX && r.seat == s.seat)
  {
    hide Wf, Tame, MoveToplevel, FollowsRule, Restyled;
    MovedWindow(s, id, u.workspace);
    RestyledFollows(s.wins[id], MoveToplevel(s, id, u.workspace).wins[id], u);
  }

  lemma SettledEffect(s: State, id: Id, gw: int, gh: int)
    requires Wf(s) && id in s.wins
    ensures var r := Settle(s, id, gw, gh);
      && r == s.(wins := r.wins) && r.wins.Keys == s.wins.Keys
      && (forall x :: x in s.wins ==> r.wins[x] == s.wins[x].(box := r.wins[x].box))
  {
    hide Wf, Tame, OutputFor;
  }

  lemma FollowsSame(was: Window, a: Window, at: Box, r: Window, u: Rule)
    requires a.ws == was.ws && a.floating == was.floating && a.fullscreen == was.fullscreen && FollowsRule(a, at, r, u)
    ensures FollowsRule(was, at, r, u)
  {
  }

  /** The state in which a window being mapped asks for the focus. */
  lemma BeforeFocus(s: State, id: Id, gw: int, gh: int, rule: Option<Rule>) returns (b: State)
    requires Wf(s) && id in s.wins && s.wins[id].kind == Xdg && !s.wins[id].mapped && OnScreenIfTiled(s, id)
    ensures Wf(b) && id in b.wins && b.wins[id].mapped && b.wins[id].kind == Xdg
    ensures b.wins[id].surface == s.wins[id].surface && s.wins[id].surface.Some?
    ensures b.locked == s.locked && b.seat == s.seat && b.focused == s.focused && b.focusedX == s.focusedX
    ensures rule == None ==>
      b.wins[id].ws == s.wins[id].ws && b.wins[id].floating == s.wins[id].floating &&
      b.wins[id].fullscreen == s.wins[id].fullscreen
    ensures rule.Some? ==> exists at :: FollowsRule(s.wins[id], at, b.wins[id], rule.value)
    ensures MapToplevel(s, id, gw, gh, rule) == Focus(b, id)
  {
    assert s.wins[id].surface.Some? && s.focused != Some(id);
    hide Wf, Keen, Settle, Survives, FollowsRule, MoveToplevel, FocusToplevel, OnScreenIfTiled, Restyle, Ordered;
    SettledEffect(SetMapped(s, id, true), id, gw, gh);
    var a := Settle(SetMapped(s, id, true), id, gw, gh);
    assert a.wins[id] == s.wins[id].(mapped := true, box := a.wins[id].box);
    b := ApplyRule(a, id, rule);
    if rule.Some? {
      RuleEffect(a, id, rule.value);
      hide ApplyRule;
      FollowsSame(s.wins[id], a.wins[id], MoveToplevel(a, id, rule.value.workspace).wins[id].box, b.wins[id], rule.value);
    }
  }

  lemma FollowsSerial(was: Window, at: Box, b: Window, r: Window, u: Rule)
    requires FollowsRule(was, at, b, u) && r == b.(serial := r.serial)
    ensures FollowsRule(was, at, r, u)
  {
  }

  /** A mapped window is there, on its workspace or the one a rule sends it to, as the rule says, and gets the
      focus unless the session is locked. */
  lemma MapEffect(s: State, id: Id, gw: int, gh: int, rule: Option<Rule>)
    requires Wf(s) && id in s.wins && s.wins[id].kind == Xdg && !s.wins[id].mapped && OnScreenIfTiled(s, id)
    ensures var r := MapToplevel(s, id, gw, gh, rule);
      && id in r.wins && r.wins[id].mapped && r.wins[id].surface == s.wins[id].surface
      && (rule == None ==>
            r.wins[id].ws == s.wins[id].ws && r.wins[id].floating == s.wins[id].floating &&
            r.wins[id].fullscreen == s.wins[id].fullscreen)
      && (rule.Some? ==> exists at :: FollowsRule(s.wins[id], at, r.wins[id], rule.value))
      && (!s.locked && s.seat != s.wins[id].surface ==> r.focused == Some(id) && r.focusedX == None)
      && (s.locked ==> r.focused == s.focused && r.focusedX == s.focusedX)
  {
    hide Wf, Tame, MapToplevel, Focus, FollowsRule, OnScreenIfTiled;
    var b := BeforeFocus(s, id, gw, gh, rule);
    FocusEffect(b, id);
    var r := Focus(b, id);
    assert r.wins[id] == b.wins[id].(serial := r.wins[id].serial);
    if rule.Some? {
      var at :| FollowsRule(s.wins[id], at, b.wins[id], rule.value);
      FollowsSerial(s.wins[id], at, b.wins[id], r.wins[id], rule.value);
    }
  }

  lemma CentredXEffect(s: State, id: Id, obox: Box, own: Box)
    requires Wf(s) && id in s.wins && s.wins[id].surface.Some?
    ensures var r := CentreX(SetMapped(s, id, true), id, obox, own); var b := r.wins[id].box;
      && r == s.(wins := s.wins[id := r.wins[id]]) && r.wins[id] == s.wins[id].(mapped := true, box := b)
      && b.w == s.wins[id].box.w && b.h == s.wins[id].box.h
      && (s.outputs == [] ==> b == s.wins[id].box)
      && (s.outputs != [] ==>
            -1 <= (b.x - obox.x) - (obox.x + obox.w - (b.x + own.w)) <= 1 &&
            -1 <= (b.y - obox.y) - (obox.y + obox.h - (b.y + own.h)) <= 1)
  {
    hide Wf, Tame;
  }

  /** Mapping an X11 window shows it, centred on the first output to within a pixel, and leaves the focus
      and all other windows alone. */
  lemma MapXEffect(s: State, id: Id, obox: Box, own: Box, full: Box)
    requires Wf(s) && id in s.wins && s.wins[id].kind == X11 && s.wins[id].surface.Some?
    ensures var r := MapX(s, id, obox, own, full, None); var b := r.wins[id].box;
      && r == s.(wins := s.wins[id := r.wins[id]]) && r.wins[id] == s.wins[id].(mapped := true, shown := true, box := b)
      && b.w == s.wins[id].box.w && b.h == s.wins[id].box.h
      && (s.outputs == [] ==> b == s.wins[id].box)
      && (s.outputs != [] ==>
            -1 <= (b.x - obox.x) - (obox.x + obox.w - (b.x + own.w)) <= 1 &&
            -1 <= (b.y - obox.y) - (obox.y + obox.h - (b.y + own.h)) <= 1)
  {
    hide Wf, Tame, CentreX, SetMapped;
    CentredXEffect(s, id, obox, own);
  }

  lemma MovedXWindow(s: State, id: Id, index: int)
    requires Wf(s) && id in s.wins && s.wins[id].kind == X11
    ensures var r := MoveX(s, id, index);
      && r.wins.Keys == s.wins.Keys && r.outputs == s.outputs
      && r.wins[id] == s.wins[id].(ws := if 0 <= index < COUNT then index else s.wins[id].ws, shown := r.wins[id].shown)
      && forall x :: x in s.wins && x != id ==> r.wins[x] == s.wins[x]
  {
    if 0 <= index < COUNT && index != s.wins[id].ws {
      MoveXEffect(s, id, index);
    }
    hide Wf, Tame, OutputFor;
  }

  /** Where a rule puts an X11 window that is at `at` and asked for `own`; `full` is its output's box. */
  ghost predicate PlacedByRule(at: Box, own: Box, full: Box, shown: bool, u: Rule, b: Box) {
    if u.fullscreen && shown then b == full
    else if u.w <= 0 && u.h <= 0 && u.x == 0 && u.y == 0 then b == at
    else
      && (b.w == if u.w > 0 then u.w else own.w) && (b.h == if u.h > 0 then u.h else own.h)
      && (b.x == if u.x != 0 then u.x else own.x) && (b.y == if u.y != 0 then u.y else own.y)
  }

  lemma RestyledXBox(win: Window, own: Box, u: Rule)
    ensures var r := RestyledX(win, own, u); r == win.(box := r.box)
    ensures PlacedByRule(win.box, own, NOWHERE, false, u, RestyledX(win, own, u).box)
  {
  }

  lemma CoveredX(s: State, id: Id, full: Box)
    requires Wf(s) && id in s.wins
    ensures var r := CoverX(s, id, full);
      && r.wins.Keys == s.wins.Keys
      && r.wins[id] == s.wins[id].(fullscreen := true,
           box := if OutputFor(s.outputs, s.wins[id].ws) >= 0 then full else s.wins[id].box)
      && forall x :: x in s.wins && x != id ==> r.wins[x] == s.wins[x]
  {
    hide Wf, Tame, OutputFor;
  }

  lemma RestyledXEffect(s: State, id: Id, own: Box, full: Box, u: Rule)
    requires Wf(s) && id in s.wins
    ensures var a := RestyleX(s, id, own, u); var r := if u.fullscreen then CoverX(a, id, full) else a;
      && r.wins.Keys == s.wins.Keys
      && r.wins[id] == s.wins[id].(box := r.wins[id].box, fullscreen := s.wins[id].fullscreen || u.fullscreen)
      && PlacedByRule(s.wins[id].box, own, full, OutputFor(s.outputs, s.wins[id].ws) >= 0, u, r.wins[id].box)
      && forall x :: x in s.wins && x != id ==> r.wins[x] == s.wins[x]
  {
    hide Wf, Tame, OutputFor, RestyledX, CoverX;
    RestyledXBox(s.wins[id], own, u);
    CoveredX(RestyleX(s, id, own, u), id, full);
  }

  /** A rule sends an X11 window to its workspace; if it names a size or a position, the window gets what it
      names and otherwise what the client asked for; made fullscreen, it covers the output showing it. */
  lemma RuleXEffect(s: State, id: Id, own: Box, full: Box, u: Rule)
    requires Wf(s) && id in s.wins && s.wins[id].kind == X11
    ensures var r := ApplyRuleX(s, id, own, full, Some(u)); var was := s.wins[id]; var w := Destination(u, was.ws);
      && r.wins.Keys == s.wins.Keys && r.wins[id].ws == w
      && r.wins[id].fullscreen == (was.fullscreen || u.fullscreen) && r.wins[id].floating == was.floating
      && PlacedByRule(was.box, own, full, OutputFor(s.outputs, w) >= 0, u, r.wins[id].box)
      && (forall x :: x in s.wins && x != id ==> r.wins[x] == s.wins[x])
  {
    hide Wf, Tame, MoveX, RestyleX, CoverX, OutputFor, PlacedByRule;
    MovedXWindow(s, id, u.workspace);
    RestyledXEffect(MoveX(s, id, u.workspace), id, own, full, u);
  }

  // ---------------------------------------------------------------- session lock and reloading

  /** A granted request locks and takes the keyboard away; an unlock ends the lock and does the same; a lock
      that is gone is forgotten and leaves the session as it is. */
  lemma LockEffects(s: State, lock: Lock)
    requires Wf(s)
    ensures var r := LockRequest(s, lock);
      if s.locked || s.activeLock.Some? then r == s
      else r == s.(locked := true, activeLock := Some(lock), seat := None, granted := r.granted) && lock in r.granted
    ensures lock in s.granted ==> LockUnlock(s, lock) == s.(locked := false, seat := None)
    ensures lock in s.granted ==>
      var r := LockDestroy(s, lock); lock !in r.granted && r == s.(activeLock := None, granted := r.granted)
  {
  }

  lemma ArrangedElsewhere(s: State, area: Box, w: WsIx)
    requires Wf(s)
    ensures var r := Arrange(s, area, w);
      && r == s.(wins := r.wins) && r.wins.Keys == s.wins.Keys
      && (forall x :: x in s.wins ==> r.wins[x] == s.wins[x].(box := r.wins[x].box))
      && (forall x :: x in s.wins && s.wins[x].ws != w ==> r.wins[x] == s.wins[x])
  {
    hide Surfaced, FocusLive, Tame, Tiled, Place;
    assert forall x :: x in s.wins && s.wins[x].ws != w ==> x !in s.spaces[w].list;
  }

  /** Only rectangles differ, and those only on tiled workspaces that are shown. */
  ghost predicate ShownTilesMoved(s: State, r: State)
    requires Wf(s)
  {
    && r == s.(wins := r.wins) && r.wins.Keys == s.wins.Keys
    && (forall x :: x in s.wins ==> r.wins[x] == s.wins[x].(box := r.wins[x].box))
    && (forall x :: x in s.wins && !(Tiles(s, s.wins[x].ws) && OutputFor(s.outputs, s.wins[x].ws) >= 0) ==>
          r.wins[x] == s.wins[x])
  }

  lemma ShownTilesTwice(s: State, a: State, r: State)
    requires Wf(s) && Wf(a) && ShownTilesMoved(s, a) && ShownTilesMoved(a, r)
    ensures ShownTilesMoved(s, r)
  {
    assert |s.spaces| == |a.spaces| == COUNT;
    hide Wf, OutputFor;
  }

  lemma OneTileMoved(s: State, r: State, w: WsIx)
    requires Wf(s) && Tiles(s, w) && OutputFor(s.outputs, w) >= 0
    requires r == s.(wins := r.wins) && r.wins.Keys == s.wins.Keys
    requires forall x :: x in s.wins ==> r.wins[x] == s.wins[x].(box := r.wins[x].box)
    requires forall x :: x in s.wins && s.wins[x].ws != w ==> r.wins[x] == s.wins[x]
    ensures ShownTilesMoved(s, r)
  {
    assert |s.spaces| == COUNT;
    hide Wf, OutputFor;
  }

  lemma NothingMoved(s: State)
    requires Wf(s)
    ensures ShownTilesMoved(s, s)
  {
    assert |s.spaces| == COUNT;
    hide Wf;
  }

  lemma ArrangeIfTiledEffect(s: State, k: nat)
    requires Wf(s) && k < |s.outputs|
    ensures ArrangeIfTiled(s, k).outputs == s.outputs && ShownTilesMoved(s, ArrangeIfTiled(s, k))
  {
    assert |s.spaces| == COUNT;
    var w := s.outputs[k].active;
    assert OutputFor(s.outputs, w) >= 0;
    hide Wf, Tame, Arrange, OutputFor, ShownTilesMoved;
    if Tiles(s, w) {
      ArrangedElsewhere(s, s.outputs[k].area, w);
      OneTileMoved(s, ArrangeIfTiled(s, k), w);
    } else {
      NothingMoved(s);
    }
  }

  lemma ReloadEnds(s: State)
    requires Wf(s)
    ensures ShownTilesMoved(s, Events.ArrangeFrom(s, |s.outputs|))
  {
    hide Linked, Surfaced, FocusLive, Tame;
  }

  /** A reload takes the new parameters over and changes nothing but rectangles, and those only on tiled
      workspaces that are shown. */
  lemma {:induction false} ReloadEffect(s: State, k: nat)
    requires Wf(s) && k <= |s.outputs|
    ensures ShownTilesMoved(s, Events.ArrangeFrom(s, k))
    decreases |s.outputs| - k
  {
    hide Wf, Tame, ArrangeIfTiled, ShownTilesMoved, Events.ArrangeFrom;
    if k < |s.outputs| {
      var a := ArrangeIfTiled(s, k);
      ArrangeIfTiledEffect(s, k);
      ArrangeFromStep(s, k);
      ReloadEffect(a, k + 1);
      ShownTilesTwice(s, a, Events.ArrangeFrom(a, k + 1));
    } else {
      ReloadEnds(s);
    }
  }

  // ---------------------------------------------------------------- what the events do

  lemma NoSwitch(s: State, k: int, index: int)
    requires Wf(s) && !SwitchMoves(s, k, index)
    ensures Switch(s, k, index) == s
  {
    hide Wf, Tame;
  }

  /** The keys and commands that choose what an output shows. */
  lemma SwitchEventsDo(s: State, k: nat, index: WsIx)
    requires Wf(s) && k < |s.outputs|
    ensures var r := Events.DeskStep(s, Events.PressSwitch(k, index));
      && |r.outputs| == |s.outputs|
      && r.outputs[k].active == if s.outputs[k].active != index then index else s.outputs[k].previous
    ensures var r := Events.DeskStep(s, Events.CommandSwitch(k, index));
      |r.outputs| == |s.outputs| && r.outputs[k].active == index
    ensures var r := Events.DeskStep(s, Events.PressScratchpad(k));
      |r.outputs| == |s.outputs| && r.outputs[k].active == if s.outputs[k].active == SCRATCH then 0 else SCRATCH
  {
    hide Wf, Tame, KeySwitch, Switch, Scratchpad;
    KeyShows(s, k, index);
    ScratchpadTwice(s, k);
    if s.outputs[k].active != index {
      SwitchOutputs(s, k, index);
    } else {
      NoSwitch(s, k, index);
    }
  }

  lemma FocusedMoves(s: State, index: WsIx, id: Id)
    requires Wf(s) && (s.focused == Some(id) || s.focusedX == Some(id))
    ensures var r := KeyMove(s, index); id in r.wins && r.wins[id].ws == index
  {
    hide Linked, Surfaced, Tame, KeyMove;
    KeyMoveEffect(s, index);
  }

  /** The move key moves the focused window. */
  lemma MoveEventDoes(s: State, index: WsIx, id: Id)
    requires Wf(s) && (s.focused == Some(id) || s.focusedX == Some(id))
    ensures var r := Events.DeskStep(s, Events.PressMove(index)); id in r.wins && r.wins[id].ws == index
  {
    hide Wf, Tame, KeyMove;
    FocusedMoves(s, index, id);
  }

  /** Jumping to an output gives the focus to the workspace it shows. */
  lemma JumpEventDoes(s: State, k: nat, x: Id)
    requires Wf(s) && k < |s.outputs| && !s.locked
    requires x in s.wins && s.wins[x].ws == s.outputs[k].active && s.wins[x].mapped
    requires forall y :: y in s.wins && s.wins[y].ws == s.outputs[k].active && s.wins[y].surface.Some? ==>
      s.wins[y].surface != s.seat
    ensures FocusOn(Events.DeskStep(s, Events.FocusAdjacent(k)), s.outputs[k].active)
  {
    hide Wf, Tame, FocusFirst, FocusOn;
    FocusFirstTakes(s, s.outputs[k].active, x);
  }

  /** The cycling key focuses the window least recently focused, unless the session is locked or the seat is
      on it already. */
  lemma CycleEventDoes(s: State)
    requires Wf(s) && !s.locked
    requires CyclePick(s).Some? && s.seat != s.wins[CyclePick(s).value].surface
    ensures var r := Events.DeskStep(s, Events.PressCycle); var id := CyclePick(s).value;
      if s.wins[id].kind == Xdg then r.focused == Some(id) && r.focusedX == None
      else r.focusedX == Some(id) && r.focused == None
  {
    hide Wf, Tame, Focus, CyclePick;
    FocusEffect(s, CyclePick(s).value);
  }

  lemma ToggledLayout(s: State, k: nat)
    requires Wf(s) && k < |s.outputs|
    ensures var w := s.outputs[k].active;
      |ToggleLayout(s, k).spaces| == |s.spaces| == COUNT &&
      ToggleLayout(s, k).spaces[w].layout == if s.spaces[w].layout == Floating then Tile else Floating
  {
    ToggleLayoutTwice(s, k);
  }

  lemma LayoutKeyDoes(s: State, k: nat)
    requires Wf(s) && k < |s.outputs|
    ensures var r := Events.DeskStep(s, Events.PressLayout(k)); var w := s.outputs[k].active;
      r.spaces[w].layout == if s.spaces[w].layout == Floating then Tile else Floating
  {
    hide Wf, Tame, ToggleLayout;
    ToggledLayout(s, k);
  }

  lemma LayoutCommandDoes(s: State, k: nat, layout: Layout)
    requires Wf(s) && k < |s.outputs|
    ensures Events.DeskStep(s, Events.CommandLayout(k, layout)).spaces[s.outputs[k].active].layout == layout
  {
    hide Wf, Tame, ChooseLayout, SetArea, LaidOut;
    OutputHandlersLayOut(s, k, s.outputs[k].area, layout);
  }

  lemma ToggledFlag(s: State, k: nat)
    requires Wf(s) && k < |s.outputs| && TogglesFloating(s)
    ensures var id := s.focused.value;
      id in s.wins && id in ToggleFloating(s, k).wins && ToggleFloating(s, k).wins[id].floating == !s.wins[id].floating
  {
    ToggledOnce(s, k);
  }

  lemma FloatingKeyDoes(s: State, k: nat)
    requires Wf(s) && k < |s.outputs| && TogglesFloating(s)
    ensures var r := Events.DeskStep(s, Events.PressFloating(k)); var id := s.focused.value;
      id in s.wins && id in r.wins && r.wins[id].floating == !s.wins[id].floating
  {
    hide Wf, Tame, ToggleFloating, TogglesFloating;
    ToggledFlag(s, k);
  }

  /** The swap key sends the focused window, unless it is the master, to the tail of its list. */
  lemma SwapKeyDoes(s: State)
    requires Wf(s) && HeadTiled(s) && SeeksMaster(s)
    ensures var id := s.focused.value; var w := s.wins[id].ws; var list := s.spaces[w].list;
      |list| > 0 &&
      Events.DeskStep(s, Events.PressSwapMaster).spaces[w].list == if list[0] == id then list else Without(list, id) + [id]
  {
    SwapMasterEffect(s);
    hide Linked, Surfaced, Tame, SwapMaster, Without;
  }

  /** The resize keys move the ratio of tiled workspaces. */
  lemma ResizeKeyDoes(s: State, dw: int, dh: int, w: int, h: int)
    requires Wf(s) && s.focused.Some? && s.spaces[s.wins[s.focused.value].ws].layout == Tile
    requires 0.1 <= s.ratio + dw as real / 2000.0 <= 0.9
    ensures Events.DeskStep(s, Events.PressResize(dw, dh, w, h)).ratio == s.ratio + dw as real / 2000.0
  {
    ResizeEffect(s, dw, dh, w, h);
    hide Wf, Tame, Resize;
  }

  lemma PlugDoes(s: State, area: Box)
    requires Wf(s) && Exclusive(s.outputs, s.spaces) && |s.outputs| < COUNT
    ensures var r := Events.DeskStep(s, Events.Plug(area)); |r.outputs| == |s.outputs| + 1 && r.outputs[0].area == area
  {
    hide Wf, Mild, Keen, Exclusive, Connect;
    ConnectEffect(s, area);
  }

  lemma UnplugDoes(s: State, k: nat)
    requires Wf(s) && Exclusive(s.outputs, s.spaces) && k < |s.outputs|
    ensures |Events.DeskStep(s, Events.Unplug(k)).outputs| == |s.outputs| - 1
  {
    hide Wf, Mild, Keen, Exclusive, Disconnect;
    DisconnectOutputs(s, k);
  }

  lemma AreaEventsDo(s: State, k: nat, area: Box)
    requires Wf(s) && k < |s.outputs|
    ensures var r := Events.DeskStep(s, Events.AreaChanged(k, area)); |r.outputs| == |s.outputs| && r.outputs[k].area == area
    ensures var r := Events.DeskStep(s, Events.Reconfigured(k, area)); |r.outputs| == |s.outputs| && r.outputs[k].area == area
  {
    hide Wf, Tame, SetArea, ReplaceArea;
    SetAreaEffect(s, k, area);
  }

  lemma ReloadDoes(s: State, gap: int, ratio: real)
    requires Wf(s)
    ensures var r := Events.DeskStep(s, Events.Reload(gap, ratio)); r.gap == gap && r.ratio == ratio && r.outputs == s.outputs
  {
    ReloadEffect(s.(gap := gap, ratio := ratio), 0);
    hide Linked, Surfaced, FocusLive, Tame, Events.ArrangeFrom;
  }

  /** The events of an xdg window's life. */
  lemma XdgEventsDo(s: State, e: Events.WindowEvent)
    requires Wf(s) && Events.WindowEnabled(s, e)
    requires e.XdgNew? || e.XdgMap? || e.XdgUnmap? || e.XdgDestroy?
    ensures var r := Events.WindowStep(s, e);
      && (e.XdgNew? ==> e.id in r.wins && r.wins[e.id].kind == Xdg && r.wins[e.id].surface == Some(e.surface))
      && (e.XdgMap? ==> e.id in r.wins && r.wins[e.id].mapped)
      && (e.XdgUnmap? ==> e.id in r.wins && !r.wins[e.id].mapped)
      && (e.XdgDestroy? ==> e.id !in r.wins)
  {
    hide Wf, Tame, Mild, Keen, FollowsRule, OnScreenIfTiled, NewToplevel, MapToplevel, UnmapToplevel, DestroyToplevel;
    match e {
      case XdgNew(k, id, surface) => NewEffect(s, k, id, surface);
      case XdgMap(id, w, h, rule) => MapEffect(s, id, w, h, rule);
      case XdgUnmap(id) => UnmapEffect(s, id);
      case XdgDestroy(id) =>
    }
  }

  /** The events of an X11 window's life. */
  lemma X11EventsDo(s: State, e: Events.WindowEvent)
    requires Wf(s) && Events.WindowEnabled(s, e) && OfX11(e)
    ensures var r := Events.WindowStep(s, e);
      && (e.X11New? ==> e.id in r.wins && r.wins[e.id].kind == X11)
      && (e.X11Associate? ==> e.id in r.wins && r.wins[e.id].surface == Some(e.surface))
      && (e.X11Dissociate? ==> e.id in r.wins && r.wins[e.id].surface == None)
      && (e.X11Map? && e.rule == None ==> e.id in r.wins && r.wins[e.id].mapped && r.wins[e.id].shown)
      && (e.X11Unmap? ==> e.id in r.wins && !r.wins[e.id].mapped)
      && (e.X11Destroy? ==> e.id !in r.wins)
  {
    assert e.X11Unmap? ==> s.wins[e.id].surface.Some?;
    hide Wf, Tame, Mild, Keen, NewX, Associate, MapX, UnmapX, DestroyX;
    match e {
      case X11New(k, id) => NewXEffect(s, k, id);
      case X11Associate(id, surface) => AssociateEffect(s, id, Some(surface));
      case X11Dissociate(id) => AssociateEffect(s, id, None);
      case X11Map(id, obox, own, full, rule) => MapXEffect(s, id, obox, own, full);
      case X11Unmap(id) => UnmapXEffect(s, id);
      case X11Destroy(id) =>
    }
  }

  /** Clicks focus a window, a grab on a tiled workspace floats it, and a `Reshape` gives it what it says. */
  lemma PointerEventsDo(s: State, e: Events.WindowEvent)
    requires Wf(s) && Events.WindowEnabled(s, e)
    requires e.ClickXdg? || e.ClickX11? || e.Grab? || e.Reshape?
    ensures var r := Events.WindowStep(s, e);
      && (e.ClickXdg? && !s.locked && s.seat != Some(e.surface) ==> r.focused == Some(e.id) && r.focusedX == None)
      && (e.ClickX11? && !s.locked && s.seat != s.wins[e.id].surface ==> r.focusedX == Some(e.id) && r.focused == None)
      && (e.Grab? && s.spaces[s.wins[e.id].ws].layout == Tile ==> e.id in r.wins && r.wins[e.id].floating)
      && (e.Reshape? ==> e.id in r.wins)
      && (e.Reshape? ==> r.wins[e.id] == s.wins[e.id].(box := e.box, shown := e.shown, fullscreen := e.fullscreen))
  {
    assert |s.spaces| == COUNT;
    hide Wf, Tame, OnScreenIfTiled, BeginInteractive;
    if e.Grab? {
      GrabEffect(s, e.id);
    }
  }
}
