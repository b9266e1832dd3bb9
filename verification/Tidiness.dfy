/** Which handlers keep every tiled workspace that is shown laid out, and that over whole runs. */
module Tidiness {
  import opened Prelude
  import opened Tiling
  import opened Compositor
  import opened Placement
  import opened Outcomes
  import Events

  /** If the `i`-th output shows a tiled workspace, the workspace is laid out on it. */
  ghost predicate Aligned(s: State, i: nat)
    requires Wf(s) && i < |s.outputs|
  {
    var sp := s.spaces[s.outputs[i].active];
    sp.layout == Tile ==> LaidOut(s.wins, sp, s.outputs[i].area, s.gap, s.ratio)
  }

  /** All outputs are, apart from those showing one of the workspaces `rest`. */
  ghost predicate AlignedBut(s: State, rest: set<nat>)
    requires Wf(s)
  {
    forall i :: 0 <= i < |s.outputs| && s.outputs[i].active !in rest ==> Aligned(s, i)
  }

  ghost predicate AllAligned(s: State)
    requires Wf(s)
  {
    AlignedBut(s, {})
  }

  /** A workspace has the same layout and the same managed windows, in the same order and places. */
  ghost predicate Kept(s: State, r: State, v: WsIx)
    requires Wf(s) && Wf(r)
  {
    var ids := Tiled(s.wins, s.spaces[v].list);
    && r.gap == s.gap && r.ratio == s.ratio
    && r.spaces[v].layout == s.spaces[v].layout
    && Tiled(r.wins, r.spaces[v].list) == ids
    && forall i :: 0 <= i < |ids| ==> r.wins[ids[i]].box == s.wins[ids[i]].box
  }

  lemma KeptAligned(s: State, r: State, i: nat, j: nat)
    requires Wf(s) && Wf(r) && i < |s.outputs| && j < |r.outputs| && Aligned(s, i)
    requires r.outputs[j].active == s.outputs[i].active && r.outputs[j].area == s.outputs[i].area
    requires Kept(s, r, s.outputs[i].active)
    ensures Aligned(r, j)
  {
    hide Wf;
  }

  lemma KeepAligned(s: State, r: State, rest: set<nat>)
    requires Wf(s) && Wf(r) && r.outputs == s.outputs && AlignedBut(s, rest)
    requires forall v: WsIx :: v !in rest ==> Kept(s, r, v)
    ensures AlignedBut(r, rest)
  {
    hide Wf, Aligned, Kept;
    forall i | 0 <= i < |r.outputs| && r.outputs[i].active !in rest
      ensures Aligned(r, i)
    {
      KeptAligned(s, r, i, i);
    }
  }

  /** Whether a layout places a window of a tiled workspace. */
  predicate Placeable(win: Window) {
    win.mapped && !win.floating
  }

  ghost predicate SamePlaceable(a: Windows, b: Windows, ids: seq<Id>) {
    forall id :: id in ids ==> id in a && id in b && Placeable(a[id]) == Placeable(b[id])
  }

  lemma {:induction false} TiledAlike(a: Windows, b: Windows, ids: seq<Id>)
    requires SamePlaceable(a, b, ids)
    ensures Tiled(a, ids) == Tiled(b, ids)
  {
    if |ids| > 0 {
      assert ids[0] in ids;
      TiledAlike(a, b, ids[1..]);
    }
  }

  /** The managed windows of a workspace are untouched. */
  lemma KeptLocal(s: State, r: State, v: WsIx)
    requires Wf(s) && Wf(r) && r.gap == s.gap && r.ratio == s.ratio
    requires r.spaces[v].layout == s.spaces[v].layout && r.spaces[v].list == s.spaces[v].list
    requires SamePlaceable(s.wins, r.wins, s.spaces[v].list)
    requires forall id :: id in s.spaces[v].list && Placeable(s.wins[id]) ==> r.wins[id].box == s.wins[id].box
    ensures Kept(s, r, v)
  {
    hide Surfaced, FocusLive;
    TiledAlike(s.wins, r.wins, s.spaces[v].list);
    var ids := Tiled(s.wins, s.spaces[v].list);
    assert forall i :: 0 <= i < |ids| ==> ids[i] in ids;
  }

  ghost predicate Distinct(outputs: seq<Output>) {
    forall i, j :: 0 <= i < j < |outputs| ==> outputs[i].active != outputs[j].active
  }

  /** Everything that tells a managed window's place. */
  ghost predicate SamePlace(a: Window, b: Window) {
    b.ws == a.ws && b.kind == a.kind && b.mapped == a.mapped && b.floating == a.floating && b.box == a.box
  }

  /** Only window `id` may have another place. */
  ghost predicate OneMoved(s: State, r: State, id: Id) {
    && r.outputs == s.outputs && r.gap == s.gap && r.ratio == s.ratio
    && |r.spaces| == |s.spaces|
    && (forall v :: 0 <= v < |s.spaces| ==> r.spaces[v].layout == s.spaces[v].layout && r.spaces[v].list == s.spaces[v].list)
    && r.wins.Keys == s.wins.Keys
    && (forall x :: x in s.wins && x != id ==> SamePlace(s.wins[x], r.wins[x]))
  }

  /** A window a layout places: an xdg window, mapped, not floating, on a tiled workspace. */
  predicate Managed(s: State, id: Id)
    requires id in s.wins && |s.spaces| == COUNT
  {
    var win := s.wins[id];
    win.kind == Xdg && Placeable(win) && s.spaces[win.ws].layout == Tile
  }

  /** A change of one window disturbs its own workspace at most. */
  lemma OneMovedAligned(s: State, r: State, id: Id, rest: set<nat>)
    requires Wf(s) && Wf(r) && id in s.wins && OneMoved(s, r, id) && AlignedBut(s, rest)
    requires s.wins[id].kind == Xdg ==> s.wins[id].ws in rest
    ensures AlignedBut(r, rest)
  {
    forall v: WsIx | v !in rest
      ensures Kept(s, r, v)
    {
      hide Surfaced, FocusLive, Aligned;
      assert id !in s.spaces[v].list;
      KeptLocal(s, r, v);
    }
    hide Wf, Aligned, Kept;
    KeepAligned(s, r, rest);
  }

  lemma UnmanagedKept(s: State, r: State, id: Id, v: WsIx)
    requires Wf(s) && Wf(r) && id in s.wins && OneMoved(s, r, id) && !Managed(s, id) && !Managed(r, id)
    requires r.wins[id].ws == s.wins[id].ws && r.wins[id].kind == s.wins[id].kind
    requires s.spaces[v].layout == Tile
    ensures Kept(s, r, v)
  {
    hide Surfaced, FocusLive, Kept;
    KeptLocal(s, r, v);
  }

  /** And not even that one if no layout places the window, before or after. */
  lemma UnmanagedMoved(s: State, r: State, id: Id)
    requires Wf(s) && Wf(r) && id in s.wins && OneMoved(s, r, id) && AllAligned(s)
    requires r.wins[id].ws == s.wins[id].ws && r.wins[id].kind == s.wins[id].kind
    requires !Managed(s, id) && !Managed(r, id)
    ensures AllAligned(r)
  {
    forall i | 0 <= i < |r.outputs|
      ensures Aligned(r, i)
    {
      hide Wf, Managed, Kept, LaidOut;
      assert Aligned(s, i);
      if s.spaces[s.outputs[i].active].layout == Tile {
        UnmanagedKept(s, r, id, s.outputs[i].active);
        KeptAligned(s, r, i, i);
      }
    }
  }

  /** Nothing on screen has changed. */
  ghost predicate SameScreen(s: State, r: State) {
    && r.outputs == s.outputs && r.spaces == s.spaces && r.gap == s.gap && r.ratio == s.ratio
    && r.wins.Keys == s.wins.Keys && forall x :: x in s.wins ==> SamePlace(s.wins[x], r.wins[x])
  }

  lemma SameScreenAligned(s: State, r: State, rest: set<nat>)
    requires Wf(s) && Wf(r) && SameScreen(s, r) && AlignedBut(s, rest)
    ensures AlignedBut(r, rest)
  {
    forall v: WsIx | v !in rest
      ensures Kept(s, r, v)
    {
      hide Surfaced, FocusLive, Aligned;
      KeptLocal(s, r, v);
    }
    hide Wf, Aligned, Kept;
    KeepAligned(s, r, rest);
  }

  lemma RefocusedScreen(s: State, r: State)
    requires Refocused(s, r)
    ensures SameScreen(s, r)
  {
  }

  // ---------------------------------------------------------------- laying out again

  lemma ArrangeKeeps(s: State, area: Box, w: WsIx, v: WsIx)
    requires Wf(s) && v != w
    ensures Kept(s, Arrange(s, area, w), v)
  {
    hide Surfaced, FocusLive, Tame, Kept;
    assert forall id :: id in s.spaces[v].list ==> id !in s.spaces[w].list;
    KeptLocal(s, Arrange(s, area, w), v);
  }

  lemma ArrangeAlignsIt(s: State, k: nat)
    requires Wf(s) && k < |s.outputs|
    ensures Aligned(Arrange(s, s.outputs[k].area, s.outputs[k].active), k)
  {
    hide Surfaced, FocusLive, Tame, Arranged, LaidOut;
    var w := s.outputs[k].active;
    ArrangedIsLaidOut(s.wins, s.spaces[w], s.outputs[k].area, s.gap, s.ratio);
  }

  /** Arranging what output `k` shows aligns it. */
  lemma ArrangeAligns(s: State, k: nat, rest: set<nat>)
    requires Wf(s) && Distinct(s.outputs) && k < |s.outputs| && AlignedBut(s, rest)
    ensures AlignedBut(Arrange(s, s.outputs[k].area, s.outputs[k].active), rest - {s.outputs[k].active})
  {
    var w := s.outputs[k].active;
    var r := Arrange(s, s.outputs[k].area, w);
    forall i | 0 <= i < |r.outputs| && r.outputs[i].active !in rest - {w}
      ensures Aligned(r, i)
    {
      hide Wf, Tame, Kept, Aligned;
      if i == k {
        ArrangeAlignsIt(s, k);
      } else {
        ArrangeKeeps(s, s.outputs[k].area, w, s.outputs[i].active);
        KeptAligned(s, r, i, i);
      }
    }
  }

  lemma TidyAligns(s: State, w: WsIx, rest: set<nat>)
    requires Wf(s) && Distinct(s.outputs) && AlignedBut(s, rest)
    ensures AlignedBut(Tidy(s, w), rest - {w})
  {
    var k := OutputFor(s.outputs, w);
    if k >= 0 {
      ArrangeAligns(s, k, rest);
    }
    hide Wf, Arrange, Aligned;
  }

  lemma FocusFirstAligns(s: State, w: WsIx)
    requires Wf(s) && AllAligned(s)
    ensures AllAligned(FocusFirst(s, w))
  {
    hide Wf, Tame, FocusFirst, Refocused, SameScreen, AlignedBut;
    RefocusedScreen(s, FocusFirst(s, w));
    SameScreenAligned(s, FocusFirst(s, w), {});
  }

  // ---------------------------------------------------------------- outputs

  /** A new output is aligned unless the workspace it gets is tiled: connecting lays nothing out. */
  lemma PlugAligns(s: State, area: Box)
    requires Wf(s) && AllAligned(s) && s.spaces[NextFree(s.outputs)].layout != Tile
    ensures AllAligned(Connect(s, area))
  {
    var r := Connect(s, area);
    forall i | 0 <= i < |r.outputs|
      ensures Aligned(r, i)
    {
      hide Surfaced, FocusLive, LaidOut, Kept;
      if i > 0 {
        assert r.outputs[i] == s.outputs[i - 1] && Aligned(s, i - 1);
        KeptLocal(s, r, s.outputs[i - 1].active);
        KeptAligned(s, r, i - 1, i);
      }
    }
  }

  lemma TakeOverAligns(s: State, w: WsIx)
    requires Wf(s) && |s.outputs| > 0 && AllAligned(s)
    requires Distinct(s.outputs[0 := s.outputs[0].(active := w)])
    ensures AllAligned(TakeOver(s, w))
  {
    var spaces := Enable(Enable(s.spaces, s.outputs[0].active, false), w, true);
    EnableLinked(s.spaces, spaces, s);
    var a := s.(outputs := s.outputs[0 := s.outputs[0].(active := w)], spaces := spaces);
    assert Wf(a);
    assert AlignedBut(a, {w}) by {
      forall i | 0 <= i < |a.outputs| && a.outputs[i].active != w
        ensures Aligned(a, i)
      {
        hide Surfaced, FocusLive, LaidOut, Kept;
        assert a.outputs[i] == s.outputs[i] && Aligned(s, i);
        KeptLocal(s, a, s.outputs[i].active);
        KeptAligned(s, a, i, i);
      }
    }
    hide Wf, Arrange, LaidOut;
    ArrangeAligns(a, 0, {w});
  }

  lemma FewerAligned(s: State, d: State, k: nat)
    requires Wf(s) && k < |s.outputs| && AllAligned(s) && d == s.(outputs := s.outputs[..k] + s.outputs[k + 1..])
    ensures Wf(d) && AllAligned(d)
  {
    assert Wf(d);
    forall i | 0 <= i < |d.outputs|
      ensures Aligned(d, i)
    {
      hide Wf, LaidOut;
      var j := if i < k then i else i + 1;
      assert d.outputs[i] == s.outputs[j] && Aligned(s, j);
    }
  }

  lemma RemainingDistinct(outputs: seq<Output>, k: nat)
    requires k < |outputs| && Distinct(outputs)
    ensures Distinct(Remaining(outputs, k))
  {
    var rest := outputs[..k] + outputs[k + 1..];
    assert forall i :: 0 <= i < |rest| ==> rest[i] == outputs[if i < k then i else i + 1];
  }

  /** After an unplug the first remaining output is laid out if what it takes over is tiled. */
  lemma UnplugAligns(s: State, k: nat)
    requires Wf(s) && k < |s.outputs| && Distinct(s.outputs) && AllAligned(s)
    ensures AllAligned(Disconnect(s, k))
  {
    var d := s.(outputs := s.outputs[..k] + s.outputs[k + 1..]);
    FewerAligned(s, d, k);
    RemainingDistinct(s.outputs, k);
    var w := s.outputs[k].active;
    var a := DropXdgFocusOn(d, w);
    hide Wf, Tame, Aligned, TakeOver, FocusFirst, DropXdgFocusOn;
    SameScreenAligned(d, a, {});
    if |a.outputs| > 0 {
      TakeOverAligns(a, w);
      FocusFirstAligns(TakeOver(a, w), w);
    }
  }

  lemma ReplacedAligned(s: State, k: nat, area: Box)
    requires Wf(s) && k < |s.outputs| && AllAligned(s)
    ensures AlignedBut(ReplaceArea(s, k, area), {s.outputs[k].active})
    ensures area == s.outputs[k].area || s.spaces[s.outputs[k].active].layout != Tile ==>
      AllAligned(ReplaceArea(s, k, area))
  {
    var r := ReplaceArea(s, k, area);
    hide Wf, Tame, LaidOut;
    assert forall i :: 0 <= i < |r.outputs| && i != k ==> r.outputs[i] == s.outputs[i];
    assert forall i :: 0 <= i < |s.outputs| ==> Aligned(s, i);
    assert forall i :: 0 <= i < |r.outputs| && i != k ==> Aligned(r, i);
  }

  lemma AreaAligns(s: State, k: nat, area: Box)
    requires Wf(s) && Distinct(s.outputs) && k < |s.outputs| && AllAligned(s)
    ensures AllAligned(SetArea(s, k, area))
  {
    ReplacedAligned(s, k, area);
    var a := ReplaceArea(s, k, area);
    assert Distinct(a.outputs);
    hide Wf, Tame, AlignedBut, Arrange;
    ArrangeAligns(a, k, {s.outputs[k].active});
    assert {s.outputs[k].active} - {s.outputs[k].active} == {};
  }

  lemma LayoutAligned(s: State, w: WsIx, layout: Layout)
    requires Wf(s) && AllAligned(s)
    ensures AlignedBut(SetLayout(s, w, layout), {w})
  {
    var r := SetLayout(s, w, layout);
    forall v: WsIx | v !in {w}
      ensures Kept(s, r, v)
    {
      hide Surfaced, FocusLive, Kept, Tame;
      KeptLocal(s, r, v);
    }
    hide Wf, Tame, Aligned, Kept;
    forall i | 0 <= i < |r.outputs| && r.outputs[i].active !in {w}
      ensures Aligned(r, i)
    {
      KeptAligned(s, r, i, i);
    }
  }

  lemma ChooseAligns(s: State, k: int, layout: Layout)
    requires Wf(s) && Distinct(s.outputs) && AllAligned(s)
    ensures AllAligned(ChooseLayout(s, k, layout))
  {
    if 0 <= k < |s.outputs| {
      var w := s.outputs[k].active;
      LayoutAligned(s, w, layout);
      var a := SetLayout(s, w, layout);
      assert a.outputs == s.outputs;
      hide Wf, Tame, AlignedBut, Arrange, SetLayout;
      ArrangeAligns(a, k, {w});
      assert {w} - {w} == {};
    }
  }

  /** What a reload does for one output. */
  function ArrangeIfTiled(s: State, k: nat): (r: State)
    requires Wf(s) && k < |s.outputs|
    ensures Wf(r)
  {
    var w := s.outputs[k].active;
    if s.spaces[w].layout == Tile then Arrange(s, s.outputs[k].area, w) else s
  }

  lemma ArrangeIfTiledAligns(s: State, k: nat, rest: set<nat>)
    requires Wf(s) && Distinct(s.outputs) && k < |s.outputs| && AlignedBut(s, rest)
    ensures var r := ArrangeIfTiled(s, k); r.outputs == s.outputs && AlignedBut(r, rest - {s.outputs[k].active})
  {
    var w := s.outputs[k].active;
    if s.spaces[w].layout == Tile {
      ArrangeAligns(s, k, rest);
    } else {
      hide Wf, LaidOut;
      forall i | 0 <= i < |s.outputs| && s.outputs[i].active !in rest - {w}
        ensures Aligned(s, i)
      {
      }
    }
  }

  lemma ArrangeFromStep(s: State, k: nat)
    requires Wf(s) && k < |s.outputs|
    ensures var r := ArrangeIfTiled(s, k);
      k + 1 <= |r.outputs| && Events.ArrangeFrom(s, k) == Events.ArrangeFrom(r, k + 1)
  {
    hide Wf, Tame;
  }

  /** Reloading lays every tiled workspace out, whatever was laid out before. */
  lemma {:induction false} ArrangeFromAligns(s: State, k: nat, rest: set<nat>)
    requires Wf(s) && Distinct(s.outputs) && k <= |s.outputs| && AlignedBut(s, rest)
    requires forall i :: 0 <= i < k ==> s.outputs[i].active !in rest
    ensures AllAligned(Events.ArrangeFrom(s, k))
    decreases |s.outputs| - k
  {
    hide Wf, Tame, Aligned, ArrangeIfTiled;
    if k < |s.outputs| {
      ArrangeIfTiledAligns(s, k, rest);
      ArrangeFromStep(s, k);
      ArrangeFromAligns(ArrangeIfTiled(s, k), k + 1, rest - {s.outputs[k].active});
    }
  }

  lemma ReloadAligns(s: State, gap: int, ratio: real)
    requires Wf(s) && Distinct(s.outputs)
    ensures AllAligned(Events.ArrangeFrom(s.(gap := gap, ratio := ratio), 0))
  {
    var shown: set<nat> := set i | 0 <= i < |s.outputs| :: s.outputs[i].active;
    hide Wf, Aligned;
    ArrangeFromAligns(s.(gap := gap, ratio := ratio), 0, shown);
  }

  // ---------------------------------------------------------------- switching

  predicate Tiles(s: State, w: WsIx)
    requires |s.spaces| == COUNT
  {
    s.spaces[w].layout == Tile
  }

  /** A switch that needs no new layout: it shows a workspace that is not tiled, or exchanges workspaces
      between outputs of equal size. */
  ghost predicate SmoothSwitch(s: State, k: int, index: int)
    requires |s.spaces| == COUNT
  {
    SwitchMoves(s, k, index) ==>
      var o := OutputFor(s.outputs, index);
      if o < 0 then !Tiles(s, index)
      else
        var at, other := s.outputs[k].area, s.outputs[o].area;
        (Tiles(s, index) || Tiles(s, s.outputs[k].active) ==> at.w == other.w && at.h == other.h)
  }

  /** A workspace a switch does not touch. */
  lemma SwitchKeeps(s: State, r: State, k: int, index: int, v: WsIx)
    requires Wf(s) && Wf(r) && SwitchMoves(s, k, index) && Switched(s, r, k, index)
    requires OutputFor(s.outputs, index) >= 0 ==> v != index && v != s.outputs[k].active
    ensures Kept(s, r, v)
  {
    hide Surfaced, FocusLive, Kept, SwapOutputs, SwapWindows;
    forall id | id in s.spaces[v].list
      ensures r.wins[id].box == s.wins[id].box
    {
      if OutputFor(s.outputs, index) >= 0 {
        SwapBox(s, k, index, id);
      } else {
        NoSwap(s, k, index);
      }
    }
    KeptLocal(s, r, v);
  }

  lemma ExchangeAligns(s: State, r: State, k: nat, index: WsIx, w: WsIx, from: nat, to: nat)
    requires Wf(s) && Wf(r) && SwitchMoves(s, k, index) && Switched(s, r, k, index) && OutputFor(s.outputs, index) >= 0
    requires from < |s.outputs| && to < |r.outputs| && Aligned(s, from)
    requires s.outputs[from].active == w == r.outputs[to].active
    requires from == (if w == index then OutputFor(s.outputs, index) else k)
    requires w == index || w == s.outputs[k].active
    requires to < |s.outputs| && r.outputs[to].area == s.outputs[to].area
    requires to == (if w == index then k else OutputFor(s.outputs, index))
    requires Tiles(s, w) ==> s.outputs[from].area.w == s.outputs[to].area.w && s.outputs[from].area.h == s.outputs[to].area.h
    ensures Aligned(r, to)
  {
    hide Surfaced, FocusLive, LaidOut, SwapOutputs, SwapWindows;
    if Tiles(s, w) {
      SwapLayout(s, r, k, index, w, s.outputs[from].area, s.outputs[to].area);
    }
  }

  lemma SwitchAlignsAt(s: State, r: State, k: int, index: int, i: nat)
    requires Wf(s) && Wf(r) && Distinct(s.outputs) && AllAligned(s) && SmoothSwitch(s, k, index)
    requires SwitchMoves(s, k, index) && Switched(s, r, k, index) && i < |r.outputs|
    ensures Aligned(r, i)
  {
    var o := OutputFor(s.outputs, index);
    SwapAreas(s.outputs, k, index);
    assert i != k && i != o ==> r.outputs[i] == s.outputs[i];
    assert r.outputs[k].active == index && (o >= 0 ==> r.outputs[o].active == s.outputs[k].active);
    assert r.spaces[index].layout == s.spaces[index].layout;
    hide Wf, SwapOutputs, SwapWindows, Kept, Switched;
    if i == k && o >= 0 {
      ExchangeAligns(s, r, k, index, index, o, k);
    } else if i == o {
      ExchangeAligns(s, r, k, index, s.outputs[k].active, k, o);
    } else if i != k {
      SwitchKeeps(s, r, k, index, s.outputs[i].active);
      KeptAligned(s, r, i, i);
    }
  }

  lemma SwitchAligns(s: State, k: int, index: int)
    requires Wf(s) && Distinct(s.outputs) && AllAligned(s) && SmoothSwitch(s, k, index)
    ensures AllAligned(Switch(s, k, index))
  {
    if SwitchMoves(s, k, index) {
      var r := Switch(s, k, index);
      var o := OutputFor(s.outputs, index);
      SwitchEffect(s, k, index);
      SwapAreas(s.outputs, k, index);
      forall i | 0 <= i < |r.outputs|
        ensures Aligned(r, i)
      {
        SwitchAlignsAt(s, r, k, index, i);
      }
    }
  }

  // ---------------------------------------------------------------- moving

  lemma RelinkKeeps(s: State, id: Id, index: WsIx, v: WsIx)
    requires Wf(s) && id in s.wins && s.wins[id].kind == Xdg && s.wins[id].ws != index
    requires v != s.wins[id].ws && v != index
    ensures Kept(s, Relink(s, id, index), v)
  {
    hide Surfaced, FocusLive, Kept, Tame, Calm;
    assert id !in s.spaces[v].list;
    KeptLocal(s, Relink(s, id, index), v);
  }

  lemma RelinkAligned(s: State, id: Id, index: WsIx)
    requires Wf(s) && id in s.wins && s.wins[id].kind == Xdg && s.wins[id].ws != index && AllAligned(s)
    ensures AlignedBut(Relink(s, id, index), {s.wins[id].ws, index})
  {
    var r := Relink(s, id, index);
    hide Wf, Tame, Aligned, Kept;
    forall i | 0 <= i < |r.outputs| && r.outputs[i].active !in {s.wins[id].ws, index}
      ensures Aligned(r, i)
    {
      RelinkKeeps(s, id, index, s.outputs[i].active);
      KeptAligned(s, r, i, i);
    }
  }

  lemma HiddenAligned(s: State, w: WsIx, rest: set<nat>)
    requires Wf(s) && AlignedBut(s, rest + {w}) && OutputFor(s.outputs, w) < 0
    ensures AlignedBut(s, rest)
  {
    hide Wf, Aligned;
  }

  lemma LandAligns(s: State, id: Id, w: WsIx, rest: set<nat>)
    requires Wf(s) && Distinct(s.outputs) && id in s.wins && AlignedBut(s, rest + {w}) && w !in rest
    ensures AlignedBut(Land(s, id, w), rest)
  {
    if OutputFor(s.outputs, w) >= 0 {
      TidyAligns(s, w, rest + {w});
      assert rest + {w} - {w} == rest;
    } else {
      hide Wf, Tame, Aligned;
      HiddenAligned(s, w, rest);
      SameScreenAligned(s, SetShown(s, id, false), rest);
    }
  }

  lemma ReleaseAligns(s: State, id: Id, w: WsIx)
    requires Wf(s) && id in s.wins && AllAligned(s)
    ensures AllAligned(Release(s, id, w))
  {
    hide Wf, Tame, AlignedBut, FocusFirst;
    if s.focused == Some(id) {
      SameScreenAligned(s, Unfocus(s), {});
      FocusFirstAligns(Unfocus(s), w);
    }
  }

  /** Moving a window lays out both workspaces, so nothing is left disturbed. */
  lemma MoveAligns(s: State, id: Id, index: int)
    requires Wf(s) && Distinct(s.outputs) && id in s.wins && s.wins[id].kind == Xdg && AllAligned(s)
    ensures AllAligned(MoveToplevel(s, id, index))
  {
    if 0 <= index < COUNT && index != s.wins[id].ws {
      var home := s.wins[id].ws;
      var m := Relink(s, id, index);
      var l := Land(m, id, index);
      assert m.outputs == s.outputs == l.outputs;
      hide Wf, Tame, Survives, AlignedBut, Relink, Land, Tidy, Release;
      RelinkAligned(s, id, index);
      assert {home, index} == {home} + {index};
      LandAligns(m, id, index, {home});
      TidyAligns(l, home, {home});
      assert {home} - {home} == {};
      ReleaseAligns(Rehomed(s, id, index), id, home);
    }
  }

  lemma MoveXMoved(s: State, id: Id, index: int)
    requires Wf(s) && id in s.wins && s.wins[id].kind == X11
    ensures OneMoved(s, MoveX(s, id, index), id)
  {
    hide Wf, Tame, OutputFor;
  }

  lemma MoveXAligns(s: State, id: Id, index: int)
    requires Wf(s) && id in s.wins && s.wins[id].kind == X11 && AllAligned(s)
    ensures AllAligned(MoveX(s, id, index))
  {
    hide Wf, Tame, AlignedBut, MoveX, OneMoved;
    MoveXMoved(s, id, index);
    OneMovedAligned(s, MoveX(s, id, index), id, {});
  }

  lemma KeyMoveAligns(s: State, index: int)
    requires Wf(s) && Distinct(s.outputs) && AllAligned(s)
    ensures AllAligned(KeyMove(s, index))
  {
    hide Linked, Surfaced, Tame, AlignedBut, MoveToplevel, MoveX;
    if s.focused.Some? {
      MoveAligns(s, s.focused.value, index);
    } else if s.focusedX.Some? {
      MoveXAligns(s, s.focusedX.value, index);
    }
  }

  // ---------------------------------------------------------------- floating, swapping the master, resizing

  /** Changing one xdg window and tidying its workspace. */
  lemma TidyOne(s: State, a: State, id: Id)
    requires Wf(s) && Wf(a) && Distinct(s.outputs) && AllAligned(s)
    requires id in s.wins && s.wins[id].kind == Xdg && OneMoved(s, a, id)
    ensures AlignedBut(a, {s.wins[id].ws}) && AllAligned(Tidy(a, s.wins[id].ws))
  {
    var w := s.wins[id].ws;
    OneMovedAligned(s, a, id, {w});
    hide Wf, Tame, Tidy, Aligned;
    TidyAligns(a, w, {w});
    assert {w} - {w} == {};
  }

  /** Arranging a hidden workspace is seen nowhere. */
  lemma ArrangeHidden(s: State, area: Box, w: WsIx)
    requires Wf(s) && AlignedBut(s, {w}) && OutputFor(s.outputs, w) < 0
    ensures AllAligned(Arrange(s, area, w))
  {
    var r := Arrange(s, area, w);
    hide Wf, Tame, Arrange, Aligned, Kept;
    forall i | 0 <= i < |r.outputs|
      ensures Aligned(r, i)
    {
      ArrangeKeeps(s, area, w, s.outputs[i].active);
      KeptAligned(s, r, i, i);
    }
  }

  lemma FloatingAligned(s: State, id: Id, on: bool)
    requires Wf(s) && id in s.wins
    ensures OneMoved(s, SetFloating(s, id, on), id)
  {
    hide Wf, Tame;
  }

  /** Toggling the floating flag lays the workspace out with the area of the output under the cursor: all
      stays aligned if that is the output showing it, or if none does. */
  lemma ToggleAligns(s: State, k: int)
    requires Wf(s) && Distinct(s.outputs) && AllAligned(s) && (TogglesFloating(s) ==> 0 <= k < |s.outputs|)
    requires TogglesFloating(s) ==> var o := OutputFor(s.outputs, s.wins[s.focused.value].ws); o < 0 || o == k
    ensures AllAligned(ToggleFloating(s, k))
  {
    if TogglesFloating(s) {
      var id := s.focused.value;
      var w := s.wins[id].ws;
      var a := SetFloating(s, id, !s.wins[id].floating);
      assert s.wins[id].kind == Xdg;
      hide Wf, Tame, Tidy, Arrange, AlignedBut;
      FloatingAligned(s, id, !s.wins[id].floating);
      TidyOne(s, a, id);
      if OutputFor(s.outputs, w) < 0 {
        ArrangeHidden(a, s.outputs[k].area, w);
      } else {
        ArrangeAligns(a, k, {w});
        assert {w} - {w} == {};
      }
    }
  }

  lemma GrabAligns(s: State, id: Id)
    requires Wf(s) && Distinct(s.outputs) && AllAligned(s)
    requires id in s.wins && s.wins[id].kind == Xdg && OnScreenIfTiled(s, id)
    ensures AllAligned(BeginInteractive(s, id))
  {
    hide Wf, Tame, Tidy, AlignedBut, OneMoved, SetFloating;
    FloatingAligned(s, id, true);
    TidyOne(s, SetFloating(s, id, true), id);
  }

  lemma ToTailKeeps(s: State, id: Id, v: WsIx)
    requires Wf(s) && id in s.wins && s.wins[id].kind == Xdg && v != s.wins[id].ws
    ensures Kept(s, ToTail(s, id), v)
  {
    hide Surfaced, FocusLive, Kept, Tame;
    KeptLocal(s, ToTail(s, id), v);
  }

  lemma SwapMasterAligns(s: State)
    requires Wf(s) && Distinct(s.outputs) && AllAligned(s) && HeadTiled(s)
    ensures AllAligned(SwapMaster(s))
  {
    if SeeksMaster(s) && s.spaces[s.wins[s.focused.value].ws].list[0] != s.focused.value {
      var id := s.focused.value;
      var w := s.wins[id].ws;
      var a := ToTail(s, id);
      hide Linked, Surfaced, Tame, Aligned, Kept, Tidy;
      forall i | 0 <= i < |a.outputs| && a.outputs[i].active !in {w}
        ensures Aligned(a, i)
      {
        ToTailKeeps(s, id, a.outputs[i].active);
        KeptAligned(s, a, i, i);
      }
      TidyAligns(a, w, {w});
      assert {w} - {w} == {};
    }
  }

  /** The ratio is shared by all workspaces, but a resize lays out only the focused window's one. */
  predicate SmoothResize(s: State, dw: int)
    requires |s.spaces| == COUNT && (s.focused.Some? ==> s.focused.value in s.wins)
  {
    s.focused.Some? && Tiles(s, s.wins[s.focused.value].ws) ==>
      || ClampRatio(s.ratio + dw as real / 2000.0) == s.ratio
      || forall v: WsIx :: v != s.wins[s.focused.value].ws && Tiles(s, v) ==> OutputFor(s.outputs, v) < 0
  }

  lemma RatioAligned(s: State, a: State, w: WsIx)
    requires Wf(s) && Wf(a) && a == s.(ratio := a.ratio) && AllAligned(s)
    requires a.ratio == s.ratio || forall v: WsIx :: v != w && Tiles(s, v) ==> OutputFor(s.outputs, v) < 0
    ensures AlignedBut(a, {w})
  {
    assert |s.spaces| == COUNT;
    assert forall i :: 0 <= i < |s.outputs| ==> OutputFor(s.outputs, s.outputs[i].active) >= 0;
    hide Wf, LaidOut, OutputFor;
    forall i | 0 <= i < |a.outputs| && a.outputs[i].active !in {w}
      ensures Aligned(a, i)
    {
      assert Aligned(s, i);
    }
  }

  lemma SizeMoved(s: State, id: Id, w: int, h: int)
    requires Wf(s) && id in s.wins && s.spaces[s.wins[id].ws].layout != Tile && AllAligned(s)
    ensures AllAligned(SetSize(s, id, w, h))
  {
    assert |s.spaces| == COUNT;
    hide Wf, Tame, AlignedBut;
    UnmanagedMoved(s, SetSize(s, id, w, h), id);
  }

  lemma ResizeAligns(s: State, dw: int, dh: int, w: int, h: int)
    requires Wf(s) && Distinct(s.outputs) && AllAligned(s) && SmoothResize(s, dw)
    ensures AllAligned(Resize(s, dw, dh, w, h))
  {
    if s.focused.Some? {
      var id := s.focused.value;
      var ws := s.wins[id].ws;
      hide Linked, Surfaced, Tame, AlignedBut, Tidy, SetSize, ClampRatio;
      if s.spaces[ws].layout == Tile {
        var a := s.(ratio := ClampRatio(s.ratio + dw as real / 2000.0));
        RatioAligned(s, a, ws);
        TidyAligns(a, ws, {ws});
        assert {ws} - {ws} == {};
      } else {
        SizeMoved(s, id, if w + dw < 120 then 120 else w + dw, if h + dh < 80 then 80 else h + dh);
      }
    }
  }

  // ---------------------------------------------------------------- xdg windows come and go

  lemma NewKeeps(s: State, k: int, id: Id, surface: Surface, v: WsIx)
    requires Wf(s) && id !in s.wins && Unclaimed(s, surface)
    ensures Kept(s, NewToplevel(s, k, id, surface), v)
  {
    hide Surfaced, FocusLive, Mild, Keen, Exclusive;
    var r := NewToplevel(s, k, id, surface);
    var list := s.spaces[v].list;
    assert id !in list;
    TiledAlike(s.wins, r.wins, list);
    if v == WorkspaceUnder(s, k) {
      assert r.spaces[v].list == [id] + list && ([id] + list)[1..] == list;
    }
    assert forall i :: 0 <= i < |Tiled(s.wins, list)| ==> Tiled(s.wins, list)[i] in Tiled(s.wins, list);
  }

  lemma NewAligns(s: State, k: int, id: Id, surface: Surface)
    requires Wf(s) && id !in s.wins && Unclaimed(s, surface) && AllAligned(s)
    ensures AllAligned(NewToplevel(s, k, id, surface))
  {
    var r := NewToplevel(s, k, id, surface);
    assert r.outputs == s.outputs;
    hide Wf, Mild, Keen, Exclusive, Aligned, Kept, NewToplevel;
    forall i | 0 <= i < |r.outputs|
      ensures Aligned(r, i)
    {
      NewKeeps(s, k, id, surface, s.outputs[i].active);
      KeptAligned(s, r, i, i);
    }
  }

  lemma TiledStep(wins: Windows, ids: seq<Id>)
    requires |ids| > 0 && forall id :: id in ids ==> id in wins
    ensures ids[0] in ids && forall id :: id in ids[1..] ==> id in wins
    ensures Tiled(wins, ids) == (if Placeable(wins[ids[0]]) then [ids[0]] else []) + Tiled(wins, ids[1..])
  {
  }

  /** A list without its `k`-th element. */
  function Erased(list: seq<Id>, k: nat): (r: seq<Id>)
    requires k < |list|
    ensures |r| == |list| - 1 && forall id :: id in r ==> id in list
    ensures k == 0 ==> r == list[1..]
    ensures k > 0 ==> r[0] == list[0] && r[1..] == Erased(list[1..], k - 1)
  {
    list[..k] + list[k + 1..]
  }

  lemma {:induction false} TiledErased(wins: Windows, list: seq<Id>, k: nat)
    requires (forall x :: x in list ==> x in wins) && k < |list| && list[k] in list && !Placeable(wins[list[k]])
    ensures Tiled(wins, Erased(list, k)) == Tiled(wins, list)
  {
    hide Tiled, Placeable, Erased;
    TiledStep(wins, list);
    if k > 0 {
      var less := Erased(list, k);
      assert less[0] == list[0] && less[1..] == Erased(list[1..], k - 1);
      TiledStep(wins, less);
      assert list[1..][k - 1] == list[k];
      TiledErased(wins, list[1..], k - 1);
    } else {
      assert Erased(list, k) == list[1..];
    }
  }

  lemma TiledWithout(wins: Windows, list: seq<Id>, id: Id)
    requires (forall x :: x in list ==> x in wins) && id in wins && !Placeable(wins[id])
    ensures (forall x :: x in Without(list, id) ==> x in wins) && Tiled(wins, Without(list, id)) == Tiled(wins, list)
  {
    if id in list {
      var k := IndexOf(list, id);
      assert Without(list, id) == Erased(list, k);
      hide Tiled, Without, Placeable, IndexOf, Erased;
      TiledErased(wins, list, k);
    }
  }

  lemma DestroyKeeps(s: State, id: Id, v: WsIx)
    requires Wf(s) && id in s.wins && s.wins[id].kind == Xdg && !s.wins[id].mapped
    ensures Kept(s, DestroyToplevel(s, id), v)
  {
    hide Surfaced, FocusLive, Tame, Without;
    var r := DestroyToplevel(s, id);
    var list := s.spaces[v].list;
    TiledWithout(s.wins, list, id);
    TiledAlike(s.wins, r.wins, r.spaces[v].list);
    assert forall i :: 0 <= i < |Tiled(s.wins, list)| ==> Tiled(s.wins, list)[i] in Tiled(s.wins, list);
  }

  lemma DestroyAligns(s: State, id: Id)
    requires Wf(s) && id in s.wins && s.wins[id].kind == Xdg && !s.wins[id].mapped && AllAligned(s)
    ensures AllAligned(DestroyToplevel(s, id))
  {
    var r := DestroyToplevel(s, id);
    assert r.outputs == s.outputs;
    hide Wf, Tame, Aligned, Kept, DestroyToplevel;
    forall i | 0 <= i < |r.outputs|
      ensures Aligned(r, i)
    {
      DestroyKeeps(s, id, s.outputs[i].active);
      KeptAligned(s, r, i, i);
    }
  }

  lemma UnmappedMoved(s: State, id: Id) returns (b: State)
    requires Wf(s) && id in s.wins && s.wins[id].kind == Xdg
    ensures Wf(b) && OneMoved(s, b, id) && b.wins[id] == s.wins[id].(mapped := false)
    ensures UnmapToplevel(s, id) == if s.spaces[s.wins[id].ws].layout == Tile then Tidy(b, s.wins[id].ws) else b
  {
    hide Linked, Tame, Tidy;
    b := SetMapped(if s.focused == Some(id) then s.(focused := None) else s, id, false);
  }

  lemma UnmapAligns(s: State, id: Id)
    requires Wf(s) && Distinct(s.outputs) && AllAligned(s) && id in s.wins && s.wins[id].kind == Xdg
    ensures AllAligned(UnmapToplevel(s, id))
  {
    var b := UnmappedMoved(s, id);
    assert |s.spaces| == COUNT;
    hide Wf, Tame, Tidy, AlignedBut, UnmapToplevel;
    if s.spaces[s.wins[id].ws].layout == Tile {
      TidyOne(s, b, id);
    } else {
      assert !Managed(s, id) && !Managed(b, id);
      UnmanagedMoved(s, b, id);
    }
  }

  /** What mapping does to a window no layout places. */
  lemma CentredMoved(s: State, id: Id, gw: int, gh: int)
    requires Wf(s) && id in s.wins && s.wins[id].surface.Some?
    requires s.spaces[s.wins[id].ws].layout != Tile || s.wins[id].floating
    ensures var r := Settle(SetMapped(s, id, true), id, gw, gh);
      OneMoved(s, r, id) && r.wins[id] == s.wins[id].(mapped := true, box := r.wins[id].box)
  {
    hide Wf, Tame, OutputFor;
  }

  /** The window is there, mapped, and everything is aligned again. */
  lemma SettleAligns(s: State, id: Id, gw: int, gh: int)
    requires Wf(s) && Distinct(s.outputs) && AllAligned(s)
    requires id in s.wins && s.wins[id].kind == Xdg && s.wins[id].surface.Some?
    ensures AllAligned(Settle(SetMapped(s, id, true), id, gw, gh))
  {
    var a := SetMapped(s, id, true);
    var w := s.wins[id].ws;
    assert |s.spaces| == COUNT;
    if s.spaces[w].layout == Tile && !s.wins[id].floating {
      hide Wf, Tame, Arrange, AlignedBut;
      TidyOne(s, a, id);
      assert Settle(a, id, gw, gh) == Tidy(a, w);
    } else {
      hide Wf, Tame, AlignedBut, Settle, SetMapped;
      CentredMoved(s, id, gw, gh);
      UnmanagedMoved(s, Settle(a, id, gw, gh), id);
    }
  }

  /** Rules move a window before they restyle it, and nothing is laid out after that. */
  predicate SmoothRule(s: State, id: Id, rule: Option<Rule>)
    requires id in s.wins && |s.spaces| == COUNT
  {
    rule.Some? ==>
      Plain(rule.value) || s.wins[id].floating || !Tiles(s, Destination(rule.value, s.wins[id].ws))
  }

  /** A move changes where a window is, not how it is. */
  ghost predicate SameManner(s: State, r: State, id: Id, to: WsIx)
    requires id in s.wins
  {
    && id in r.wins && r.wins[id].kind == s.wins[id].kind && r.wins[id].floating == s.wins[id].floating
    && r.wins[id].ws == to && r.outputs == s.outputs
    && |r.spaces| == |s.spaces| && forall v :: 0 <= v < |s.spaces| ==> r.spaces[v].layout == s.spaces[v].layout
  }

  lemma RelinkManner(s: State, id: Id, index: WsIx)
    requires Wf(s) && id in s.wins && s.wins[id].kind == Xdg && s.wins[id].ws != index
    ensures SameManner(s, Relink(s, id, index), id, index)
  {
    hide Linked, Surfaced, FocusLive, Tame, Calm;
  }

  lemma TidyManner(s: State, id: Id, w: WsIx)
    requires Wf(s) && id in s.wins
    ensures SameManner(s, Tidy(s, w), id, s.wins[id].ws)
  {
    hide Wf, Tame, OutputFor, Arranged;
  }

  lemma LandManner(s: State, id: Id, w: WsIx)
    requires Wf(s) && id in s.wins
    ensures SameManner(s, Land(s, id, w), id, s.wins[id].ws)
  {
    hide Wf, Tame, OutputFor, Tidy;
    TidyManner(s, id, w);
  }

  lemma RehomedManner(s: State, id: Id, index: WsIx)
    requires Wf(s) && id in s.wins && s.wins[id].kind == Xdg && s.wins[id].ws != index
    ensures SameManner(s, Rehomed(s, id, index), id, index)
  {
    hide Wf, Tame, Tidy, Land, Relink;
    var m := Relink(s, id, index);
    RelinkManner(s, id, index);
    LandManner(m, id, index);
    TidyManner(Land(m, id, index), id, s.wins[id].ws);
  }

  lemma MoveManner(s: State, id: Id, index: int)
    requires Wf(s) && id in s.wins && s.wins[id].kind == Xdg
    ensures SameManner(s, MoveToplevel(s, id, index), id, if 0 <= index < COUNT then index else s.wins[id].ws)
  {
    if 0 <= index < COUNT && index != s.wins[id].ws {
      RehomedManner(s, id, index);
      ReleaseEffect(Rehomed(s, id, index), id, s.wins[id].ws);
    }
    hide Wf, Tame, Rehomed, Release;
  }

  lemma RestyleAligns(s: State, id: Id, u: Rule)
    requires Wf(s) && id in s.wins && s.wins[id].kind == Xdg && AllAligned(s)
    requires Plain(u) || s.wins[id].floating || !Tiles(s, s.wins[id].ws)
    ensures AllAligned(Restyle(s, id, u))
  {
    var r := Restyle(s, id, u);
    assert |s.spaces| == COUNT;
    hide Wf, Tame, AlignedBut;
    if Plain(u) {
      SameScreenAligned(s, r, {});
    } else {
      UnmanagedMoved(s, r, id);
    }
  }

  lemma RuleAligns(s: State, id: Id, rule: Option<Rule>)
    requires Wf(s) && Distinct(s.outputs) && AllAligned(s)
    requires id in s.wins && s.wins[id].kind == Xdg && SmoothRule(s, id, rule)
    ensures AllAligned(ApplyRule(s, id, rule))
  {
    if rule.Some? {
      MoveAligns(s, id, rule.value.workspace);
      MoveManner(s, id, rule.value.workspace);
      hide Wf, Tame, AlignedBut, MoveToplevel, Restyle;
      RestyleAligns(MoveToplevel(s, id, rule.value.workspace), id, rule.value);
    }
  }

  lemma FocusToplevelAligns(s: State, id: Id, surface: Surface)
    requires Wf(s) && id in s.wins && s.wins[id].kind == Xdg && s.wins[id].mapped && AllAligned(s)
    requires forall a :: a in s.wins && s.wins[a].surface == Some(surface) ==> a == id
    ensures AllAligned(FocusToplevel(s, id, surface))
  {
    hide Wf, Tame, AlignedBut, FocusToplevel, SameScreen, Refocused;
    RefocusedScreen(s, FocusToplevel(s, id, surface));
    SameScreenAligned(s, FocusToplevel(s, id, surface), {});
  }

  lemma SettledManner(s: State, id: Id, gw: int, gh: int)
    requires Wf(s) && id in s.wins && s.wins[id].surface.Some?
    ensures var r := Settle(SetMapped(s, id, true), id, gw, gh);
      SameManner(s, r, id, s.wins[id].ws) && r.wins[id].mapped && r.wins[id].surface == s.wins[id].surface
  {
    hide Linked, Surfaced, FocusLive, Tame, OutputFor, Arranged;
  }

  lemma MapAligns(s: State, id: Id, gw: int, gh: int, rule: Option<Rule>)
    requires Wf(s) && Distinct(s.outputs) && AllAligned(s)
    requires id in s.wins && s.wins[id].kind == Xdg && OnScreenIfTiled(s, id) && SmoothRule(s, id, rule)
    ensures AllAligned(MapToplevel(s, id, gw, gh, rule))
  {
    assert s.wins[id].surface.Some? && |s.spaces| == COUNT;
    SettleAligns(s, id, gw, gh);
    SettledManner(s, id, gw, gh);
    var a := Settle(SetMapped(s, id, true), id, gw, gh);
    hide Linked, FocusLive, Tame, AlignedBut, Settle, SetMapped, ApplyRule, FocusToplevel;
    RuleAligns(a, id, rule);
    var b := ApplyRule(a, id, rule);
    FocusToplevelAligns(b, id, b.wins[id].surface.value);
  }

  // ---------------------------------------------------------------- X11 windows

  lemma NewXAligns(s: State, k: int, id: Id)
    requires Wf(s) && id !in s.wins && AllAligned(s)
    ensures AllAligned(NewX(s, k, id))
  {
    var r := NewX(s, k, id);
    forall v: WsIx | v !in {}
      ensures Kept(s, r, v)
    {
      hide Surfaced, FocusLive, Tame, Aligned, Kept;
      KeptLocal(s, r, v);
    }
    hide Wf, Tame, Aligned, Kept;
    KeepAligned(s, r, {});
  }

  lemma DestroyXAligns(s: State, id: Id)
    requires Wf(s) && id in s.wins && s.wins[id].kind == X11 && AllAligned(s)
    ensures AllAligned(DestroyX(s, id))
  {
    var r := DestroyX(s, id);
    forall v: WsIx | v !in {}
      ensures Kept(s, r, v)
    {
      hide Surfaced, FocusLive, Tame, Aligned, Kept;
      KeptLocal(s, r, v);
    }
    hide Wf, Tame, Aligned, Kept;
    KeepAligned(s, r, {});
  }

  lemma MovedTwice(s: State, a: State, r: State, id: Id)
    requires OneMoved(s, a, id) && OneMoved(a, r, id)
    ensures OneMoved(s, r, id)
  {
  }

  lemma RestyleXMoved(s: State, id: Id, own: Box, u: Rule)
    requires Wf(s) && id in s.wins
    ensures OneMoved(s, RestyleX(s, id, own, u), id)
  {
    hide Wf, Tame, RestyledX;
  }

  lemma CoverXMoved(s: State, id: Id, full: Box)
    requires Wf(s) && id in s.wins
    ensures OneMoved(s, CoverX(s, id, full), id)
  {
    hide Wf, Tame, OutputFor;
  }

  lemma RuleXMoved(s: State, id: Id, own: Box, full: Box, rule: Option<Rule>)
    requires Wf(s) && id in s.wins && s.wins[id].kind == X11
    ensures OneMoved(s, ApplyRuleX(s, id, own, full, rule), id)
  {
    if rule.Some? {
      MoveXMoved(s, id, rule.value.workspace);
      var a := MoveX(s, id, rule.value.workspace);
      RestyleXMoved(a, id, own, rule.value);
      var b := RestyleX(a, id, own, rule.value);
      CoverXMoved(b, id, full);
      hide Wf, Tame, MoveX, RestyleX, CoverX, OneMoved;
      MovedTwice(s, a, b, id);
      MovedTwice(s, b, ApplyRuleX(s, id, own, full, rule), id);
    } else {
      hide Wf, Tame;
    }
  }

  lemma CentreXMoved(s: State, id: Id, obox: Box, own: Box)
    requires Wf(s) && id in s.wins && s.wins[id].surface.Some?
    ensures var r := CentreX(SetMapped(s, id, true), id, obox, own); OneMoved(s, r, id) && r.wins[id].kind == s.wins[id].kind
  {
    hide Wf, Tame;
  }

  lemma ShownMoved(s: State, id: Id, on: bool)
    requires Wf(s) && id in s.wins
    ensures OneMoved(s, SetShown(s, id, on), id)
  {
    hide Wf, Tame;
  }

  lemma MapXMoved(s: State, id: Id, obox: Box, own: Box, full: Box, rule: Option<Rule>)
    requires Wf(s) && id in s.wins && s.wins[id].kind == X11 && s.wins[id].surface.Some?
    ensures OneMoved(s, MapX(s, id, obox, own, full, rule), id)
  {
    CentreXMoved(s, id, obox, own);
    var a := CentreX(SetMapped(s, id, true), id, obox, own);
    RuleXMoved(a, id, own, full, rule);
    var b := ApplyRuleX(a, id, own, full, rule);
    ShownMoved(b, id, true);
    hide Wf, Tame, CentreX, SetMapped, ApplyRuleX, SetShown, OneMoved;
    MovedTwice(s, a, b, id);
    MovedTwice(s, b, MapX(s, id, obox, own, full, rule), id);
  }

  lemma UnmapXMoved(s: State, id: Id)
    requires Wf(s) && id in s.wins && s.wins[id].kind == X11 && s.wins[id].surface.Some?
    ensures OneMoved(s, UnmapX(s, id), id)
  {
    hide Linked, Surfaced, Tame;
  }

  lemma AssociateMoved(s: State, id: Id, surface: Option<Surface>)
    requires Wf(s) && id in s.wins && s.wins[id].kind == X11 && !s.wins[id].mapped
    requires surface.Some? ==> Unclaimed(s, surface.value)
    ensures OneMoved(s, Associate(s, id, surface), id)
  {
    hide Wf, Mild, Keen, Exclusive;
  }

  // ---------------------------------------------------------------- events and runs

  /** Only the geometry and visibility of window `id` may differ. */
  ghost predicate OneReshaped(s: State, r: State, id: Id)
    requires id in s.wins
  {
    && OneMoved(s, r, id) && r.wins[id].kind == s.wins[id].kind && r.wins[id].ws == s.wins[id].ws
    && r.wins[id].mapped == s.wins[id].mapped && r.wins[id].floating == s.wins[id].floating
  }

  lemma PlacedReshaped(s: State, id: Id, box: Box)
    requires Wf(s) && id in s.wins
    ensures OneReshaped(s, SetSize(SetPos(s, id, box.x, box.y), id, box.w, box.h), id)
  {
    hide Wf, Tame;
  }

  lemma ShownReshaped(s: State, id: Id, shown: bool, fullscreen: bool)
    requires Wf(s) && id in s.wins
    ensures OneReshaped(s, SetFullscreen(SetShown(s, id, shown), id, fullscreen), id)
  {
    hide Wf, Tame;
  }

  lemma ReshapedTwice(s: State, a: State, r: State, id: Id)
    requires id in s.wins && OneReshaped(s, a, id) && id in a.wins && OneReshaped(a, r, id)
    ensures OneReshaped(s, r, id)
  {
  }

  /** The state after a `Reshape` event. */
  function Reshaped(s: State, id: Id, box: Box, shown: bool, fullscreen: bool): (r: State)
    requires Wf(s) && id in s.wins
    ensures Wf(r)
  {
    SetFullscreen(SetShown(SetSize(SetPos(s, id, box.x, box.y), id, box.w, box.h), id, shown), id, fullscreen)
  }

  lemma ReshapedMoved(s: State, id: Id, box: Box, shown: bool, fullscreen: bool)
    requires Wf(s) && id in s.wins
    ensures OneReshaped(s, Reshaped(s, id, box, shown, fullscreen), id)
  {
    PlacedReshaped(s, id, box);
    var a := SetSize(SetPos(s, id, box.x, box.y), id, box.w, box.h);
    ShownReshaped(a, id, shown, fullscreen);
    hide Wf, Tame, SetSize, SetPos, SetShown, SetFullscreen, OneReshaped;
    ReshapedTwice(s, a, Reshaped(s, id, box, shown, fullscreen), id);
  }

  lemma ReshapeAligns(s: State, id: Id, box: Box, shown: bool, fullscreen: bool)
    requires Wf(s) && id in s.wins && AllAligned(s) && (!Managed(s, id) || OutputFor(s.outputs, s.wins[id].ws) < 0)
    ensures AllAligned(Reshaped(s, id, box, shown, fullscreen))
  {
    var r := Reshaped(s, id, box, shown, fullscreen);
    ReshapedMoved(s, id, box, shown, fullscreen);
    assert |s.spaces| == COUNT;
    hide Wf, Tame, Aligned, Reshaped;
    if Managed(s, id) {
      OneMovedAligned(s, r, id, {s.wins[id].ws});
      HiddenAligned(r, s.wins[id].ws, {});
    } else {
      UnmanagedMoved(s, r, id);
    }
  }

  /** What keeps every output aligned: everything but connecting an output to a tiled workspace, moving an
      output's area under one, showing one that was hidden or exchanging some between outputs of different
      size, toggling the floating flag under the cursor of another output, resizing while a second tiled
      workspace is shown, reshaping a tiled window, and mapping one with a rule that floats it or sets its size or
      position. */
  ghost predicate Smooth(s: State, e: Events.Event)
    requires Wf(s) && Events.Enabled(s, e)
  {
    match e
    case Desk(Plug(_)) => !Tiles(s, NextFree(s.outputs))
    case Desk(Reconfigured(k, area)) => area == s.outputs[k].area || !Tiles(s, s.outputs[k].active)
    case Desk(PressSwitch(k, index)) =>
      0 <= k < |s.outputs| ==> SmoothSwitch(s, k, if s.outputs[k].active == index then s.outputs[k].previous else index)
    case Desk(CommandSwitch(k, to)) => SmoothSwitch(s, k, to)
    case Desk(PressScratchpad(k)) =>
      0 <= k < |s.outputs| ==> SmoothSwitch(s, k, if s.outputs[k].active == SCRATCH then 0 else SCRATCH)
    case Desk(PressFloating(k)) =>
      TogglesFloating(s) ==> var o := OutputFor(s.outputs, s.wins[s.focused.value].ws); o < 0 || o == k
    case Desk(PressResize(dw, _, _, _)) => SmoothResize(s, dw)
    case Win(Reshape(id, _, _, _)) => !Managed(s, id) || OutputFor(s.outputs, s.wins[id].ws) < 0
    case Win(XdgMap(id, _, _, rule)) => SmoothRule(s, id, rule)
    case _ => true
  }

  predicate OfOutputs(e: Events.DeskEvent) {
    e.Plug? || e.Unplug? || e.Reconfigured?
  }

  predicate LaysOut(e: Events.DeskEvent) {
    e.AreaChanged? || e.PressLayout? || e.CommandLayout?
  }

  lemma OutputEventAligns(s: State, e: Events.DeskEvent)
    requires Wf(s) && Distinct(s.outputs) && Events.DeskEnabled(s, e) && OfOutputs(e)
    requires AllAligned(s) && Smooth(s, Events.Desk(e))
    ensures AllAligned(Events.DeskStep(s, e))
  {
    assert |s.spaces| == COUNT;
    hide Wf, Tame, Mild, Keen, AlignedBut, Connect, Disconnect, ReplaceArea;
    match e {
      case Plug(area) => PlugAligns(s, area);
      case Unplug(k) => UnplugAligns(s, k);
      case Reconfigured(k, area) => ReplacedAligned(s, k, area);
    }
  }

  lemma ToggleLayoutAligns(s: State, k: int)
    requires Wf(s) && Distinct(s.outputs) && AllAligned(s)
    ensures AllAligned(ToggleLayout(s, k))
  {
    assert |s.spaces| == COUNT;
    hide Wf, Tame, AlignedBut, ChooseLayout;
    if 0 <= k < |s.outputs| {
      ChooseAligns(s, k, if s.spaces[s.outputs[k].active].layout == Floating then Tile else Floating);
    }
  }

  lemma LayoutEventAligns(s: State, e: Events.DeskEvent)
    requires Wf(s) && Distinct(s.outputs) && Events.DeskEnabled(s, e) && LaysOut(e) && AllAligned(s)
    ensures AllAligned(Events.DeskStep(s, e))
  {
    hide Wf, Tame, AlignedBut, SetArea, ToggleLayout, ChooseLayout;
    match e {
      case AreaChanged(k, area) => AreaAligns(s, k, area);
      case PressLayout(k) => ToggleLayoutAligns(s, k);
      case CommandLayout(k, layout) => ChooseAligns(s, k, layout);
    }
  }

  lemma ReloadEventAligns(s: State, gap: int, ratio: real)
    requires Wf(s) && Distinct(s.outputs)
    ensures AllAligned(Events.DeskStep(s, Events.Reload(gap, ratio)))
  {
    hide Wf, AlignedBut, Events.ArrangeFrom;
    ReloadAligns(s, gap, ratio);
  }

  lemma SwitchEventAligns(s: State, e: Events.DeskEvent)
    requires Wf(s) && Distinct(s.outputs) && Events.DeskEnabled(s, e) && AllAligned(s) && Smooth(s, Events.Desk(e))
    requires e.PressSwitch? || e.CommandSwitch? || e.PressScratchpad?
    ensures AllAligned(Events.DeskStep(s, e))
  {
    hide Wf, Tame, AlignedBut, SmoothSwitch, Switch;
    match e {
      case PressSwitch(k, index) =>
        if 0 <= k < |s.outputs| {
          SwitchAligns(s, k, if s.outputs[k].active == index then s.outputs[k].previous else index);
        }
      case CommandSwitch(k, to) => SwitchAligns(s, k, to);
      case PressScratchpad(k) =>
        if 0 <= k < |s.outputs| {
          SwitchAligns(s, k, if s.outputs[k].active == SCRATCH then 0 else SCRATCH);
        }
    }
  }

  lemma KeyEventAligns(s: State, e: Events.DeskEvent)
    requires Wf(s) && Distinct(s.outputs) && Events.DeskEnabled(s, e) && AllAligned(s) && Smooth(s, Events.Desk(e))
    requires !e.Reload? && !OfOutputs(e) && !LaysOut(e) && !e.PressSwitch? && !e.CommandSwitch? && !e.PressScratchpad?
    ensures AllAligned(Events.DeskStep(s, e))
  {
    hide Wf, Tame, Refocused, SameScreen, AlignedBut, SmoothResize, TogglesFloating, HeadTiled, KeyMove, CycleFocus,
      ToggleFloating, SwapMaster, Resize, FocusFirst;
    match e {
      case PressMove(to) => KeyMoveAligns(s, to);
      case PressCycle =>
        RefocusedScreen(s, CycleFocus(s));
        SameScreenAligned(s, CycleFocus(s), {});
      case PressFloating(k) => ToggleAligns(s, k);
      case PressSwapMaster => SwapMasterAligns(s);
      case PressResize(dw, dh, w, h) => ResizeAligns(s, dw, dh, w, h);
      case FocusAdjacent(k) => FocusFirstAligns(s, s.outputs[k].active);
    }
  }

  lemma DeskAligns(s: State, e: Events.DeskEvent)
    requires Wf(s) && Distinct(s.outputs) && Events.DeskEnabled(s, e)
    requires e.Reload? || (AllAligned(s) && Smooth(s, Events.Desk(e)))
    ensures AllAligned(Events.DeskStep(s, e))
  {
    hide Wf, AlignedBut, Smooth, Events.DeskEnabled, Events.DeskStep;
    if e.Reload? {
      ReloadEventAligns(s, e.gap, e.ratio);
    } else if OfOutputs(e) {
      OutputEventAligns(s, e);
    } else if LaysOut(e) {
      LayoutEventAligns(s, e);
    } else if e.PressSwitch? || e.CommandSwitch? || e.PressScratchpad? {
      SwitchEventAligns(s, e);
    } else {
      KeyEventAligns(s, e);
    }
  }

  lemma X11Aligns(s: State, r: State, id: Id)
    requires Wf(s) && Wf(r) && id in s.wins && s.wins[id].kind == X11 && OneMoved(s, r, id) && AllAligned(s)
    ensures AllAligned(r)
  {
    OneMovedAligned(s, r, id, {});
  }

  predicate OfX11(e: Events.WindowEvent) {
    e.X11New? || e.X11Associate? || e.X11Dissociate? || e.X11Map? || e.X11Unmap? || e.X11Destroy?
  }

  lemma XWindowMoved(s: State, e: Events.WindowEvent)
    requires Wf(s) && Events.WindowEnabled(s, e) && OfX11(e) && !e.X11New? && !e.X11Destroy?
    ensures e.id in s.wins && s.wins[e.id].kind == X11 && OneMoved(s, Events.WindowStep(s, e), e.id)
  {
    assert e.X11Unmap? ==> s.wins[e.id].surface.Some?;
    hide Wf, Tame, Mild, Keen, Unclaimed, OneMoved, Associate, MapX, UnmapX;
    match e {
      case X11Associate(id, surface) => AssociateMoved(s, id, Some(surface));
      case X11Dissociate(id) => AssociateMoved(s, id, None);
      case X11Map(id, obox, own, full, rule) => MapXMoved(s, id, obox, own, full, rule);
      case X11Unmap(id) => UnmapXMoved(s, id);
    }
  }

  lemma XWindowAligns(s: State, e: Events.WindowEvent)
    requires Wf(s) && Events.WindowEnabled(s, e) && AllAligned(s) && OfX11(e)
    ensures AllAligned(Events.WindowStep(s, e))
  {
    hide Wf, Tame, OneMoved, AlignedBut, NewX, DestroyX;
    if e.X11New? {
      NewXAligns(s, e.under, e.id);
    } else if e.X11Destroy? {
      DestroyXAligns(s, e.id);
    } else {
      XWindowMoved(s, e);
      X11Aligns(s, Events.WindowStep(s, e), e.id);
    }
  }

  lemma XdgWindowAligns(s: State, e: Events.WindowEvent)
    requires Wf(s) && Distinct(s.outputs) && Events.WindowEnabled(s, e) && AllAligned(s)
    requires Smooth(s, Events.Win(e)) && !OfX11(e)
    ensures AllAligned(Events.WindowStep(s, e))
  {
    var r := Events.WindowStep(s, e);
    hide Wf, Tame, Mild, Keen, Refocused, SameScreen, AlignedBut, OnScreenIfTiled, SmoothRule, Managed, BeginInteractive,
      NewToplevel, MapToplevel, UnmapToplevel, DestroyToplevel, FocusToplevel, FocusX, SetPos, SetSize, SetShown, SetFullscreen;
    match e {
      case ClickXdg(id, surface) => FocusToplevelAligns(s, id, surface);
      case ClickX11(id) =>
        RefocusedScreen(s, r);
        SameScreenAligned(s, r, {});
      case Grab(id) => GrabAligns(s, id);
      case Reshape(id, box, shown, fullscreen) => ReshapeAligns(s, id, box, shown, fullscreen);
      case XdgNew(k, id, surface) => NewAligns(s, k, id, surface);
      case XdgMap(id, w, h, rule) => MapAligns(s, id, w, h, rule);
      case XdgUnmap(id) => UnmapAligns(s, id);
      case XdgDestroy(id) => DestroyAligns(s, id);
    }
  }

  lemma SeatAligns(s: State, e: Events.SeatEvent)
    requires Wf(s) && AllAligned(s)
    ensures AllAligned(Events.SeatStep(s, e))
  {
    hide Wf, AlignedBut;
    SameScreenAligned(s, Events.SeatStep(s, e), {});
  }

  lemma StepAligns(s: State, e: Events.Event)
    requires Events.Inv(s) && Events.Enabled(s, e)
    requires (e.Desk? && e.desk.Reload?) || (AllAligned(s) && Smooth(s, e))
    ensures AllAligned(Events.Step(s, e))
  {
    assert Distinct(s.outputs);
    hide Wf, AlignedBut, Smooth, Exclusive;
    match e {
      case Desk(d) => DeskAligns(s, d);
      case Win(w) =>
        if OfX11(w) {
          XWindowAligns(s, w);
        } else {
          XdgWindowAligns(s, w);
        }
      case Seat(t) => SeatAligns(s, t);
    }
  }

  /** Every event of the run is smooth when its turn comes. */
  ghost predicate AllSmooth(s: State, es: seq<Events.Event>)
    requires Wf(s) && Events.Possible(s, es)
    decreases |es|
  {
    |es| > 0 ==> Smooth(s, es[0]) && AllSmooth(Events.Step(s, es[0]), es[1..])
  }

  /** Over every run of smooth events, every output that shows a tiled workspace shows it laid out. */
  lemma {:induction false} RunAligns(s: State, es: seq<Events.Event>)
    requires Events.Inv(s) && Events.Possible(s, es) && AllAligned(s) && AllSmooth(s, es)
    ensures AllAligned(Events.After(s, es))
    decreases |es|
  {
    if |es| > 0 {
      hide AlignedBut, Smooth, Exclusive;
      Events.StepKeeps(s, es[0]);
      StepAligns(s, es[0]);
      RunAligns(Events.Step(s, es[0]), es[1..]);
    }
  }

  lemma BootAligned(keyboard: bool, gap: int, ratio: real)
    ensures AllAligned(Events.Boot(keyboard, gap, ratio))
  {
  }
}
