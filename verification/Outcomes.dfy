/** Where the focus goes, and which handlers leave their workspace laid out. */
module Outcomes {
  import opened Prelude
  import opened Tiling
  import opened Compositor
  import opened Placement

  // ---------------------------------------------------------------- focus

  /** No focus pointer points into workspace `w`. */
  ghost predicate NoFocusOn(s: State, w: WsIx)
    requires Wf(s)
  {
    && (s.focused.Some? ==> s.wins[s.focused.value].ws != w)
    && (s.focusedX.Some? ==> s.wins[s.focusedX.value].ws != w)
  }

  lemma DropEffect(s: State, w: WsIx)
    requires Wf(s)
    ensures NoFocusOn(DropFocusOn(s, w), w)
  {
  }

  /** Giving a mapped window the focus makes it the focused one, unless the session is locked or the
      seat is on its surface already; either way no other window becomes the focused one. */
  lemma FocusEffect(s: State, id: Id)
    requires Wf(s) && id in s.wins && s.wins[id].mapped
    ensures var r := Focus(s, id);
      if s.locked || s.seat == s.wins[id].surface then r == s
      else
        && r.focused == (if s.wins[id].kind == Xdg then Some(id) else None)
        && r.focusedX == (if s.wins[id].kind == X11 then Some(id) else None)
        && (s.wins[id].kind == Xdg ==> |r.toplevels| > 0 && r.toplevels[0] == id)
        && r.seat == (if s.keyboard then s.wins[id].surface else s.seat)
  {
    hide Tame, Linked;
  }

  lemma FocusFirstEffect(s: State, w: WsIx, prev: WsIx)
    requires Wf(s) && NoFocusOn(s, prev) && w != prev
    ensures NoFocusOn(FocusFirst(s, w), prev)
    ensures var r := FocusFirst(s, w); var t := FocusTarget(s, w);
      t.Some? && !s.locked && s.seat != s.wins[t.value].surface ==>
        (r.focused == t || r.focusedX == t) && r.wins[t.value].ws == w && r.wins[t.value].mapped
  {
    hide Tame, Linked, FocusTarget;
    if FocusTarget(s, w).Some? {
      FocusEffect(s, FocusTarget(s, w).value);
    }
  }

  /** After a switch the focus is not on the workspace that was left. */
  lemma SwitchLeavesFocus(s: State, k: int, index: int)
    requires Wf(s) && SwitchMoves(s, k, index)
    ensures NoFocusOn(Switch(s, k, index), s.outputs[k].active)
  {
    var prev := s.outputs[k].active;
    var a := Shown(s, k, index);
    var b := DropFocusOn(a, prev);
    DropEffect(a, prev);
    FocusFirstEffect(b, index, prev);
    hide Wf, Tame, DropFocusOn, FocusFirst, Shown;
    assert Switch(s, k, index) == FocusFirst(b, index);
  }

  /** A focus pointer points into workspace `w`. */
  ghost predicate FocusOn(s: State, w: WsIx)
    requires Wf(s)
  {
    || (s.focused.Some? && s.wins[s.focused.value].ws == w)
    || (s.focusedX.Some? && s.wins[s.focusedX.value].ws == w)
  }

  /** Unlocked, a switch to a workspace with a mapped window puts the focus there, provided the seat is
      not on one of its windows already. */
  lemma SwitchFocuses(s: State, k: int, index: int, id: Id)
    requires Wf(s) && SwitchMoves(s, k, index) && !s.locked
    requires id in s.wins && s.wins[id].ws == index && s.wins[id].mapped
    requires forall x :: x in s.wins && s.wins[x].ws == index && s.wins[x].surface.Some? ==> s.wins[x].surface != s.seat
    ensures FocusOn(Switch(s, k, index), index)
  {
    var prev := s.outputs[k].active;
    var a := Shown(s, k, index);
    var b := DropFocusOn(a, prev);
    DropEffect(a, prev);
    FocusFirstEffect(b, index, prev);
    var t := FocusTarget(b, index);
    hide Tame, DropFocusOn, FocusFirst, FocusTarget, Linked, FocusLive;
    assert b.wins[id].mapped && b.wins[id].ws == index;
    assert b.seat == s.seat || b.seat.None?;
    assert b.wins[t.value].surface.Some? && b.wins[t.value].surface != b.seat;
  }

  /** Toggling the scratchpad goes to workspace 0 from the scratchpad and to the scratchpad from anywhere
      else, so toggling twice restores what the output showed exactly when that was one of the two. */
  lemma ScratchpadTwice(s: State, k: int)
    requires Wf(s) && 0 <= k < |s.outputs|
    ensures var once := Scratchpad(s, k); var twice := Scratchpad(once, k); var was := s.outputs[k].active;
      && |once.outputs| == |twice.outputs| == |s.outputs|
      && once.outputs[k].active == (if was == SCRATCH then 0 else SCRATCH)
      && (twice.outputs[k].active == was <==> was == 0 || was == SCRATCH)
  {
    hide Wf, Tame, Switch;
    var to: WsIx := if s.outputs[k].active == SCRATCH then 0 else SCRATCH;
    SwitchOutputs(s, k, to);
    SwitchOutputs(Switch(s, k, to), k, if to == SCRATCH then 0 else SCRATCH);
  }

  /** Swapping never changes the master: the focused window goes to the tail of its list. */
  lemma SwapMasterEffect(s: State)
    requires Wf(s) && HeadTiled(s) && s.focused.Some?
    ensures var id := s.focused.value; var w := s.wins[id].ws;
      var list := s.spaces[w].list; var after := SwapMaster(s).spaces[w].list;
      && |after| == |list| > 0 && after[0] == list[0]
      && (after != list ==> after[|after| - 1] == id && SeeksMaster(s) && list[0] != id)
      && (SeeksMaster(s) && list[0] != id ==> after == Without(list, id) + [id])
  {
    hide Tame, Surfaced, Arrange, Without;
    var id := s.focused.value;
    var w := s.wins[id].ws;
    var list := s.spaces[w].list;
    assert id in list;
    if list[0] != id {
      var rest := Without(list, id);
      assert |rest| == |list| - 1 && rest[0] == list[0] by {
        assert IndexOf(list, id) > 0;
      }
    }
  }

  // ---------------------------------------------------------------- laying out

  /** Where it is shown, the workspace is laid out. */
  ghost predicate Neat(s: State, w: WsIx)
    requires Wf(s)
  {
    OutputFor(s.outputs, w) >= 0 ==> LaidOut(s.wins, s.spaces[w], Origin(s.outputs, w), s.gap, s.ratio)
  }

  lemma TidyNeat(s: State, w: WsIx)
    requires Wf(s)
    ensures Neat(Tidy(s, w), w)
  {
    TidyLaysOut(s, w);
  }

  /** Changes of focus alone disturb no layout. */
  lemma FocusKeepsNeat(s: State, r: State, w: WsIx)
    requires Wf(s) && Wf(r) && Neat(s, w)
    requires r.outputs == s.outputs && r.spaces == s.spaces && r.gap == s.gap && r.ratio == s.ratio
    requires r.wins.Keys == s.wins.Keys
    requires forall id :: id in s.wins ==> r.wins[id] == s.wins[id].(serial := r.wins[id].serial)
    ensures Neat(r, w)
  {
    if OutputFor(s.outputs, w) >= 0 {
      LaidOutLocal(s.wins, r.wins, s.spaces[w], Origin(s.outputs, w), s.gap, s.ratio);
    }
  }

  lemma MapFocusNeat(s: State, id: Id, w: WsIx)
    requires Wf(s) && Neat(s, w) && id in s.wins && s.wins[id].kind == Xdg && s.wins[id].mapped
    ensures Neat(FocusToplevel(s, id, s.wins[id].surface.value), w)
  {
    FocusKeepsNeat(s, FocusToplevel(s, id, s.wins[id].surface.value), w);
  }

  /** A rule that asks for no change of geometry. */
  predicate Plain(u: Rule) {
    !u.floating && (u.w <= 0 || u.h <= 0) && u.x == 0 && u.y == 0
  }

  /** Where a rule sends a window from workspace `home`. */
  function Destination(u: Rule, home: WsIx): WsIx {
    if 0 <= u.workspace < COUNT then u.workspace else home
  }

  lemma MoveFrame(s: State, id: Id, index: WsIx)
    requires Wf(s) && id in s.wins && s.wins[id].kind == Xdg && s.wins[id].ws != index
    ensures var r := MoveToplevel(s, id, index); r.outputs == s.outputs && r.gap == s.gap && r.ratio == s.ratio
  {
    ReleaseEffect(Rehomed(s, id, index), id, s.wins[id].ws);
    hide Wf, Tame, Land, Tidy, Release;
  }

  lemma MoveNeat(s: State, id: Id, index: int)
    requires Wf(s) && id in s.wins && s.wins[id].kind == Xdg && Neat(s, s.wins[id].ws)
    ensures var r := MoveToplevel(s, id, index);
      Neat(r, s.wins[id].ws) && (0 <= index < COUNT ==> Neat(r, index))
  {
    if 0 <= index < COUNT && index != s.wins[id].ws {
      MoveFrame(s, id, index);
      MoveLaysOut(s, id, index);
      hide Linked, Surfaced, FocusLive, Tame, MoveToplevel, LaidOut;
    }
  }

  lemma RestyleNeat(s: State, id: Id, u: Rule, w: WsIx)
    requires Wf(s) && id in s.wins && Plain(u) && Neat(s, w)
    ensures Neat(Restyle(s, id, u), w)
  {
    hide Tame, Surfaced, FocusLive;
    if OutputFor(s.outputs, w) >= 0 {
      LaidOutLocal(s.wins, Restyle(s, id, u).wins, s.spaces[w], Origin(s.outputs, w), s.gap, s.ratio);
    }
  }

  lemma RuleNeat(s: State, id: Id, rule: Option<Rule>)
    requires Wf(s) && id in s.wins && s.wins[id].kind == Xdg && Neat(s, s.wins[id].ws)
    requires rule.Some? ==> Plain(rule.value)
    ensures var r := ApplyRule(s, id, rule);
      Neat(r, s.wins[id].ws) && (rule.Some? ==> Neat(r, Destination(rule.value, s.wins[id].ws)))
  {
    if rule.Some? {
      var u := rule.value;
      MoveNeat(s, id, u.workspace);
      hide Wf, Tame, Neat, Plain, MoveToplevel, Restyle;
      RestyleNeat(MoveToplevel(s, id, u.workspace), id, u, s.wins[id].ws);
      RestyleNeat(MoveToplevel(s, id, u.workspace), id, u, Destination(u, s.wins[id].ws));
    }
  }

  lemma MapNeat(s: State, id: Id, gw: int, gh: int, rule: Option<Rule>)
    requires Wf(s) && id in s.wins && s.wins[id].kind == Xdg && OnScreenIfTiled(s, id)
    requires s.spaces[s.wins[id].ws].layout == Tile && !s.wins[id].floating
    requires rule.Some? ==> Plain(rule.value)
    ensures var r := MapToplevel(s, id, gw, gh, rule); var w := s.wins[id].ws;
      Neat(r, w) && (rule.Some? ==> Neat(r, Destination(rule.value, w)))
  {
    var w := s.wins[id].ws;
    hide Wf, Tame, Arrange, Neat, FocusToplevel, ApplyRule, Plain;
    var a := SetMapped(s, id, true);
    TidyNeat(a, w);
    assert Settle(a, id, gw, gh) == Tidy(a, w);
    RuleNeat(Tidy(a, w), id, rule);
    var b := ApplyRule(Tidy(a, w), id, rule);
    MapFocusNeat(b, id, w);
    if rule.Some? {
      MapFocusNeat(b, id, Destination(rule.value, w));
    }
  }

  lemma UnmapNeat(s: State, id: Id)
    requires Wf(s) && id in s.wins && s.wins[id].kind == Xdg
    requires s.spaces[s.wins[id].ws].layout == Tile && !s.wins[id].floating
    ensures Neat(UnmapToplevel(s, id), s.wins[id].ws)
  {
    hide Linked, Tame, Arrange, Neat;
    var a := if s.focused == Some(id) then s.(focused := None) else s;
    TidyNeat(SetMapped(a, id, false), s.wins[id].ws);
  }

  lemma FloatNeat(s: State, id: Id)
    requires Wf(s) && id in s.wins && s.wins[id].kind == Xdg && OnScreenIfTiled(s, id)
    requires s.spaces[s.wins[id].ws].layout == Tile && !s.wins[id].floating
    ensures Neat(BeginInteractive(s, id), s.wins[id].ws)
  {
    hide Wf, Tame, Arrange, Neat;
    TidyNeat(SetFloating(s, id, true), s.wins[id].ws);
  }

  /** Mapping, unmapping and floating a tiled window each end with its tiled workspace laid out, where it
      is shown, and so does the workspace a rule sends it to, unless the rule changes its geometry. */
  lemma WindowHandlersNeat(s: State, id: Id, gw: int, gh: int, rule: Option<Rule>)
    requires Wf(s) && id in s.wins && s.wins[id].kind == Xdg && OnScreenIfTiled(s, id)
    requires s.spaces[s.wins[id].ws].layout == Tile && !s.wins[id].floating
    ensures var w := s.wins[id].ws;
      && (rule.None? || Plain(rule.value) ==>
            var r := MapToplevel(s, id, gw, gh, rule);
            Neat(r, w) && (rule.Some? ==> Neat(r, Destination(rule.value, w))))
      && Neat(UnmapToplevel(s, id), w)
      && Neat(BeginInteractive(s, id), w)
  {
    hide Wf, Tame, Neat, Plain, Destination, MapToplevel, UnmapToplevel, BeginInteractive;
    if rule.None? || Plain(rule.value) {
      MapNeat(s, id, gw, gh, rule);
    }
    UnmapNeat(s, id);
    FloatNeat(s, id);
  }

  /** A new usable area or a new layout leaves the output's workspace laid out on it. */
  lemma OutputHandlersLayOut(s: State, k: nat, area: Box, layout: Layout)
    requires Wf(s) && k < |s.outputs|
    ensures var r := SetArea(s, k, area); var w := s.outputs[k].active;
      r.outputs[k].area == area && r.outputs[k].active == w && LaidOut(r.wins, r.spaces[w], area, r.gap, r.ratio)
    ensures var r := ChooseLayout(s, k, layout); var w := s.outputs[k].active;
      r.spaces[w].layout == layout && LaidOut(r.wins, r.spaces[w], s.outputs[k].area, r.gap, r.ratio)
  {
    hide Tame, Surfaced, FocusLive;
    var w := s.outputs[k].active;
    var c := SetLayout(s, w, layout);
    ArrangedIsLaidOut(s.wins, s.spaces[w], area, s.gap, s.ratio);
    ArrangedIsLaidOut(c.wins, c.spaces[w], s.outputs[k].area, s.gap, s.ratio);
  }

  /** A window that is not tiled is centred on the output showing its workspace, to within a pixel. */
  lemma MappedIsCentred(s: State, id: Id, gw: int, gh: int)
    requires Wf(s) && id in s.wins && OutputFor(s.outputs, s.wins[id].ws) >= 0
    requires s.spaces[s.wins[id].ws].layout != Tile || s.wins[id].floating
    ensures var b := Settle(s, id, gw, gh).wins[id].box; var area := Origin(s.outputs, s.wins[id].ws);
      && -1 <= (b.x - area.x) - (area.x + area.w - (b.x + gw)) <= 1
      && -1 <= (b.y - area.y) - (area.y + area.h - (b.y + gh)) <= 1
  {
    hide Wf, Tame;
  }

  /** Resizing in a tiled workspace moves the ratio by a 2000th per pixel, keeps it between a tenth and
      nine tenths, and lays the focused window's workspace out again. */
  lemma ResizeEffect(s: State, dw: int, dh: int, w: int, h: int)
    requires Wf(s) && s.focused.Some? && s.spaces[s.wins[s.focused.value].ws].layout == Tile
    ensures var r := Resize(s, dw, dh, w, h); var wanted := s.ratio + dw as real / 2000.0;
      && 0.1 <= r.ratio <= 0.9
      && (0.1 <= wanted <= 0.9 ==> r.ratio == wanted)
      && (wanted < 0.1 ==> r.ratio == 0.1) && (wanted > 0.9 ==> r.ratio == 0.9)
      && Neat(r, s.wins[s.focused.value].ws)
  {
    var ws := s.wins[s.focused.value].ws;
    var a := s.(ratio := ClampRatio(s.ratio + dw as real / 2000.0));
    CalmIsTame(s, a);
    TidyNeat(a, ws);
    hide Tame, Neat, Tidy, Linked, Surfaced;
  }
}
