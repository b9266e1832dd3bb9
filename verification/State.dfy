/** State of the compositor and what each event handler does to it. */
module Compositor {
  import opened Prelude
  import opened Tiling

  const COUNT: nat := 9
  const SCRATCH: nat := 8

  type WsIx = n: nat | n < COUNT
  type Id = nat
  type Surface = nat
  type Lock = nat

  datatype Kind = Xdg | X11
  datatype Layout = Floating | Tile | Monocle
  datatype Output = Output(area: Box, active: WsIx, previous: WsIx)

  /** One workspace: its layout, its xdg windows front to back, and its scene tree's enabled flag. */
  datatype Space = Space(layout: Layout, list: seq<Id>, enabled: bool)

  /** An xdg toplevel or an X11 window. An X11 window has no surface until it is associated with one. */
  datatype Window = Window(kind: Kind, ws: WsIx, surface: Option<Surface>, mapped: bool,
                           floating: bool, shown: bool, fullscreen: bool, serial: nat, box: Box)

  /** A matching window rule; `workspace` is -1 when the rule names none. */
  datatype Rule = Rule(workspace: int, floating: bool, fullscreen: bool, x: int, y: int, w: int, h: int)

  type Windows = map<Id, Window>

  datatype State = State(
    outputs: seq<Output>,
    spaces: seq<Space>,
    wins: Windows,
    toplevels: seq<Id>,
    xsurfaces: seq<Id>,
    focused: Option<Id>,
    focusedX: Option<Id>,
    seat: Option<Surface>,
    keyboard: bool,
    nextSerial: nat,
    locked: bool,
    activeLock: Option<Lock>,
    granted: set<Lock>,
    gap: int,
    ratio: real)

  // ---------------------------------------------------------------- well-formedness

  /** Every window is linked exactly once into the list of its kind, and every xdg window exactly
      once into the list of the workspace its own field names. */
  ghost predicate Linked(spaces: seq<Space>, wins: Windows, toplevels: seq<Id>, xsurfaces: seq<Id>) {
    && |spaces| == COUNT
    && NoDup(toplevels) && NoDup(xsurfaces)
    && (forall id {:trigger id in toplevels} :: id in toplevels <==> id in wins && wins[id].kind == Xdg)
    && (forall id {:trigger id in xsurfaces} :: id in xsurfaces <==> id in wins && wins[id].kind == X11)
    && (forall w :: 0 <= w < COUNT ==> NoDup(spaces[w].list))
    && (forall w, id {:trigger id in spaces[w].list} :: 0 <= w < COUNT ==>
          (id in spaces[w].list <==> id in wins && wins[id].kind == Xdg && wins[id].ws == w))
  }

  /** Mapped windows and xdg windows have a surface, and no surface belongs to two windows. */
  ghost predicate Surfaced(wins: Windows) {
    && (forall id :: id in wins && (wins[id].mapped || wins[id].kind == Xdg) ==> wins[id].surface.Some?)
    && (forall a, b :: a in wins && b in wins && a != b && wins[a].surface.Some? ==>
          wins[a].surface != wins[b].surface)
  }

  /** At most one focus pointer is set, and it points at a live mapped window of its kind. */
  ghost predicate FocusLive(wins: Windows, focused: Option<Id>, focusedX: Option<Id>) {
    && (focused.Some? ==> focused.value in wins && wins[focused.value].kind == Xdg && wins[focused.value].mapped)
    && (focusedX.Some? ==> focusedX.value in wins && wins[focusedX.value].kind == X11 && wins[focusedX.value].mapped)
    && !(focused.Some? && focusedX.Some?)
  }

  ghost predicate Wf(s: State) {
    && |s.spaces| == COUNT
    && Linked(s.spaces, s.wins, s.toplevels, s.xsurfaces)
    && Surfaced(s.wins)
    && FocusLive(s.wins, s.focused, s.focusedX)
  }

  // ---------------------------------------------------------------- invariants beyond well-formedness

  /** `output_for_workspace`: the first output showing `w`, or -1. */
  function OutputFor(outputs: seq<Output>, w: WsIx): (r: int)
    ensures -1 <= r < |outputs|
    ensures r >= 0 ==> outputs[r].active == w && forall k :: 0 <= k < r ==> outputs[k].active != w
    ensures r == -1 ==> forall k :: 0 <= k < |outputs| ==> outputs[k].active != w
  {
    if |outputs| == 0 then -1
    else if outputs[0].active == w then 0
    else
      var r := OutputFor(outputs[1..], w);
      if r == -1 then -1 else r + 1
  }

  /** No two outputs show the same workspace, and exactly the shown workspaces are enabled. */
  ghost predicate Exclusive(outputs: seq<Output>, spaces: seq<Space>) {
    && (forall i, j :: 0 <= i < j < |outputs| ==> outputs[i].active != outputs[j].active)
    && |spaces| == COUNT
    && (forall w :: 0 <= w < COUNT ==> (spaces[w].enabled <==> OutputFor(outputs, w) >= 0))
  }

  /** Focus serials are issued once each. */
  ghost predicate Issued(wins: Windows, next: nat) {
    && (forall id :: id in wins ==> wins[id].serial <= next)
    && (forall a, b :: a in wins && b in wins && a != b && wins[a].serial > 0 ==> wins[a].serial != wins[b].serial)
  }

  /** A list of windows has the ones focused before in latest-first order. */
  ghost predicate Recent(wins: Windows, list: seq<Id>) {
    && (forall i :: 0 <= i < |list| ==> list[i] in wins)
    && (forall i, j :: 0 <= i < j < |list| && wins[list[i]].serial > 0 ==> wins[list[i]].serial > wins[list[j]].serial)
  }

  ghost predicate Ordered(wins: Windows, toplevels: seq<Id>, next: nat) {
    Issued(wins, next) && Recent(wins, toplevels)
  }

  /** With a keyboard, a window that has the seat's focus is the one focused last. */
  ghost predicate Attentive(wins: Windows, seat: Option<Surface>, keyboard: bool, next: nat) {
    && keyboard
    && (forall id :: id in wins && wins[id].surface.Some? && wins[id].surface == seat ==>
          wins[id].serial == next && next > 0)
  }

  /** Legal tiling parameters stay legal, focus order stays ordered, and the lock is left alone; while
      the session is locked a focus pointer keeps its value or is dropped. */
  ghost predicate Mild(s: State, r: State) {
    && r.locked == s.locked && r.activeLock == s.activeLock && r.granted == s.granted
    && (s.locked ==> (r.focused == s.focused || r.focused.None?) && (r.focusedX == s.focusedX || r.focusedX.None?))
    && r.gap == s.gap && (0.0 <= s.ratio <= 1.0 ==> 0.0 <= r.ratio <= 1.0)
    && (Ordered(s.wins, s.toplevels, s.nextSerial) ==> Ordered(r.wins, r.toplevels, r.nextSerial))
  }

  /** While the session is locked, no window has the seat's focus. */
  ghost predicate Barred(wins: Windows, seat: Option<Surface>, locked: bool) {
    locked ==> forall id :: id in wins && wins[id].surface.Some? ==> wins[id].surface != seat
  }

  /** The seat keeps to the window focused last, and off all windows while locked. */
  ghost predicate Keen(s: State, r: State) {
    && (Attentive(s.wins, s.seat, s.keyboard, s.nextSerial) ==> Attentive(r.wins, r.seat, r.keyboard, r.nextSerial))
    && (Barred(s.wins, s.seat, s.locked) ==> Barred(r.wins, r.seat, r.locked))
  }

  /** What a handler that does not plug, unplug, lock or unlock keeps, whether or not it moves windows or focus. */
  ghost predicate Tame(s: State, r: State) {
    Mild(s, r) && Keen(s, r) && (Exclusive(s.outputs, s.spaces) ==> Exclusive(r.outputs, r.spaces))
  }

  /** The same windows with the same identity; workspace, geometry and map state may differ. */
  ghost predicate SameWindows(a: Windows, b: Windows) {
    && a.Keys == b.Keys
    && forall id :: id in a ==>
         b[id].kind == a[id].kind && b[id].surface == a[id].surface && b[id].serial == a[id].serial
  }

  /** Outputs, displays, serials and locks stand still, and focus is at most dropped. */
  ghost predicate Calm(s: State, r: State) {
    && r == s.(spaces := r.spaces, wins := r.wins, focused := r.focused, focusedX := r.focusedX,
               seat := r.seat, ratio := r.ratio)
    && (0.0 <= s.ratio <= 1.0 ==> 0.0 <= r.ratio <= 1.0)
    && SameWindows(s.wins, r.wins)
    && |r.spaces| == |s.spaces|
    && (forall w :: 0 <= w < |s.spaces| ==> r.spaces[w].enabled == s.spaces[w].enabled)
    && (r.seat == s.seat || r.seat.None?)
    && (r.focused == s.focused || r.focused.None?)
    && (r.focusedX == s.focusedX || r.focusedX.None?)
  }

  lemma CalmIsMild(s: State, r: State)
    requires Calm(s, r)
    ensures Mild(s, r)
  {
  }

  lemma CalmIsTame(s: State, r: State)
    requires Calm(s, r)
    ensures Tame(s, r)
    ensures Surfaced(s.wins) && (forall id :: id in r.wins && r.wins[id].mapped ==> r.wins[id].surface.Some?) ==>
      Surfaced(r.wins)
  {
    hide Mild;
    CalmIsMild(s, r);
  }

  /** Linking depends only on the windows' kinds and the xdg windows' workspaces. */
  lemma SameLinks(s: State, wins: Windows)
    requires Linked(s.spaces, s.wins, s.toplevels, s.xsurfaces) && wins.Keys == s.wins.Keys
    requires forall id :: id in wins ==>
      wins[id].kind == s.wins[id].kind && (wins[id].kind == X11 || wins[id].ws == s.wins[id].ws)
    ensures Linked(s.spaces, wins, s.toplevels, s.xsurfaces)
  {
  }

  /** Only geometry, visibility, floating and fullscreen flags of windows differ. */
  ghost predicate OnlyRedrawn(s: State, r: State) {
    && r == s.(wins := r.wins)
    && r.wins.Keys == s.wins.Keys
    && forall id :: id in s.wins ==>
         r.wins[id] == s.wins[id].(box := r.wins[id].box, shown := r.wins[id].shown, floating := r.wins[id].floating,
                                    fullscreen := r.wins[id].fullscreen)
  }

  lemma RedrawnIsTame(s: State, r: State)
    requires Wf(s) && OnlyRedrawn(s, r)
    ensures Wf(r) && Calm(s, r) && Tame(s, r)
  {
    CalmIsTame(s, r);
    SameLinks(s, r.wins);
  }

  // ---------------------------------------------------------------- lookups

  /** First output other than `k` that shows `w`, or -1. */
  function OtherShowing(outputs: seq<Output>, k: nat, w: WsIx): (r: int)
    requires k < |outputs| && outputs[k].active != w
    ensures -1 <= r < |outputs| && r != k
    ensures r >= 0 ==> outputs[r].active == w
    ensures r == -1 ==> forall i :: 0 <= i < |outputs| ==> outputs[i].active != w
  {
    OutputFor(outputs, w)
  }

  /** First mapped window of a list. */
  function FirstMapped(wins: Windows, ids: seq<Id>): (r: Option<Id>)
    requires forall id :: id in ids ==> id in wins
    ensures r.Some? ==> r.value in ids && wins[r.value].mapped
    ensures r.None? ==> forall id :: id in ids ==> !wins[id].mapped
  {
    if |ids| == 0 then None
    else if wins[ids[0]].mapped then Some(ids[0])
    else FirstMapped(wins, ids[1..])
  }

  /** First mapped window of a list that lives on workspace `w`. */
  function FirstMappedOn(wins: Windows, ids: seq<Id>, w: WsIx): (r: Option<Id>)
    requires forall id :: id in ids ==> id in wins
    ensures r.Some? ==> r.value in ids && wins[r.value].mapped && wins[r.value].ws == w
    ensures r.None? ==> forall id :: id in ids ==> !(wins[id].ws == w && wins[id].mapped)
  {
    if |ids| == 0 then None
    else if wins[ids[0]].ws == w && wins[ids[0]].mapped then Some(ids[0])
    else FirstMappedOn(wins, ids[1..], w)
  }

  // ---------------------------------------------------------------- arranging

  /** The windows a layout manages: mapped and not floating, in list order. */
  function Tiled(wins: Windows, ids: seq<Id>): (r: seq<Id>)
    requires forall id :: id in ids ==> id in wins
    ensures forall id :: id in r <==> id in ids && wins[id].mapped && !wins[id].floating
    ensures NoDup(ids) ==> NoDup(r)
  {
    if |ids| == 0 then []
    else
      assert ids == [ids[0]] + ids[1..];
      (if wins[ids[0]].floating || !wins[ids[0]].mapped then [] else [ids[0]]) + Tiled(wins, ids[1..])
  }

  /** Gives the i-th window the i-th rectangle. */
  function Place(wins: Windows, ids: seq<Id>, boxes: seq<Box>): (r: Windows)
    requires |ids| == |boxes| && NoDup(ids)
    requires forall id :: id in ids ==> id in wins
    ensures r.Keys == wins.Keys
    ensures forall i :: 0 <= i < |ids| ==> r[ids[i]] == wins[ids[i]].(box := boxes[i])
    ensures forall id :: id in wins && id !in ids ==> r[id] == wins[id]
  {
    if |ids| == 0 then wins
    else
      assert ids[0] !in ids[1..] && forall id :: id in ids <==> id == ids[0] || id in ids[1..] by {
        assert ids == [ids[0]] + ids[1..];
      }
      var next := wins[ids[0] := wins[ids[0]].(box := boxes[0])];
      var r := Place(next, ids[1..], boxes[1..]);
      assert forall i :: 1 <= i < |ids| ==> r[ids[i]] == next[ids[1..][i - 1]].(box := boxes[1..][i - 1]);
      r
  }

  /** The rectangles a layout gives its `n` managed windows. */
  function Boxes(layout: Layout, area: Box, gap: int, ratio: real, n: nat): (r: seq<Box>)
    ensures |r| == n
  {
    match layout
    case Tile => seq(n, i requires 0 <= i < n => TileBox(area, gap, ratio, n, i))
    case _ => seq(n, i => MonocleBox(area, gap))
  }

  /** `kum_workspace_arrange` and `kum_workspace_monocle_arrange`, as a change of the window table. */
  function Arranged(wins: Windows, sp: Space, area: Box, gap: int, ratio: real): (r: Windows)
    requires NoDup(sp.list) && forall id :: id in sp.list ==> id in wins
    ensures r.Keys == wins.Keys
    ensures forall id :: id in wins ==> r[id] == wins[id].(box := r[id].box)
    ensures forall id :: id in wins && id !in sp.list ==> r[id] == wins[id]
  {
    if sp.layout == Floating then wins
    else
      var ids := Tiled(wins, sp.list);
      var r := Place(wins, ids, Boxes(sp.layout, area, gap, ratio, |ids|));
      assert forall id :: id in wins && id in ids ==> r[id] == wins[id].(box := r[id].box) by {
        forall id | id in wins && id in ids
          ensures r[id] == wins[id].(box := r[id].box)
        {
          var i :| 0 <= i < |ids| && ids[i] == id;
        }
      }
      r
  }

  function Arrange(s: State, area: Box, w: WsIx): (r: State)
    requires Wf(s)
    ensures Wf(r) && OnlyRedrawn(s, r) && Tame(s, r)
  {
    var r := s.(wins := Arranged(s.wins, s.spaces[w], area, s.gap, s.ratio));
    RedrawnIsTame(s, r);
    r
  }

  /** Lays a workspace out again on the output showing it, if there is one. */
  function Tidy(s: State, w: WsIx): (r: State)
    requires Wf(s)
    ensures Wf(r) && OnlyRedrawn(s, r) && Tame(s, r)
  {
    var k := OutputFor(s.outputs, w);
    if k >= 0 then Arrange(s, s.outputs[k].area, w) else s
  }

  function SetFloating(s: State, id: Id, on: bool): (r: State)
    requires Wf(s) && id in s.wins
    ensures Wf(r) && OnlyRedrawn(s, r) && Tame(s, r)
  {
    var r := s.(wins := s.wins[id := s.wins[id].(floating := on)]);
    RedrawnIsTame(s, r);
    r
  }

  function SetSize(s: State, id: Id, w: int, h: int): (r: State)
    requires Wf(s) && id in s.wins
    ensures Wf(r) && OnlyRedrawn(s, r) && Tame(s, r)
  {
    var r := s.(wins := s.wins[id := s.wins[id].(box := s.wins[id].box.(w := w, h := h))]);
    RedrawnIsTame(s, r);
    r
  }

  function SetPos(s: State, id: Id, x: int, y: int): (r: State)
    requires Wf(s) && id in s.wins
    ensures Wf(r) && OnlyRedrawn(s, r) && Tame(s, r)
  {
    var r := s.(wins := s.wins[id := s.wins[id].(box := s.wins[id].box.(x := x, y := y))]);
    RedrawnIsTame(s, r);
    r
  }

  /** `wlr_scene_node_set_enabled` on the window's own node. */
  function SetShown(s: State, id: Id, on: bool): (r: State)
    requires Wf(s) && id in s.wins
    ensures Wf(r) && OnlyRedrawn(s, r) && Tame(s, r)
  {
    var r := s.(wins := s.wins[id := s.wins[id].(shown := on)]);
    RedrawnIsTame(s, r);
    r
  }

  function SetFullscreen(s: State, id: Id, on: bool): (r: State)
    requires Wf(s) && id in s.wins
    ensures Wf(r) && OnlyRedrawn(s, r) && Tame(s, r)
  {
    var r := s.(wins := s.wins[id := s.wins[id].(fullscreen := on)]);
    RedrawnIsTame(s, r);
    r
  }

  function Moved(b: Box, dx: int, dy: int): Box {
    b.(x := b.x + dx, y := b.y + dy)
  }

  /** `workspace_translate`: shifts every window, of either kind, that lives on `w`. */
  function Translate(wins: Windows, w: WsIx, dx: int, dy: int): (r: Windows)
    ensures r.Keys == wins.Keys
    ensures forall id :: id in wins ==>
      r[id] == if wins[id].ws == w then wins[id].(box := Moved(wins[id].box, dx, dy)) else wins[id]
  {
    map id | id in wins :: if wins[id].ws == w then wins[id].(box := Moved(wins[id].box, dx, dy)) else wins[id]
  }

  // ---------------------------------------------------------------- focus

  /** Only focus, stacking order and serials differ. */
  ghost predicate Refocused(s: State, r: State) {
    && r == s.(toplevels := r.toplevels, wins := r.wins, focused := r.focused, focusedX := r.focusedX,
               seat := r.seat, nextSerial := r.nextSerial)
    && r.wins.Keys == s.wins.Keys
    && forall id :: id in s.wins ==> r.wins[id] == s.wins[id].(serial := r.wins[id].serial)
  }

  /** The window table after a window gets the next serial. */
  function Stamp(wins: Windows, id: Id, serial: nat): Windows
    requires id in wins
  {
    wins[id := wins[id].(serial := serial)]
  }

  /** `toplevels` after a window is raised; X11 windows are not on that list. */
  function RaisedList(s: State, id: Id): seq<Id>
    requires id in s.wins
  {
    if s.wins[id].kind == Xdg then [id] + Without(s.toplevels, id) else s.toplevels
  }

  lemma StampLinked(s: State, id: Id)
    requires Wf(s) && id in s.wins && s.wins[id].mapped
    ensures Linked(s.spaces, Stamp(s.wins, id, s.nextSerial + 1), RaisedList(s, id), s.xsurfaces)
    ensures Surfaced(Stamp(s.wins, id, s.nextSerial + 1))
  {
    assert s.wins[id].kind == Xdg ==> id !in Without(s.toplevels, id);
  }

  lemma UnlinkRecent(wins: Windows, list: seq<Id>, id: Id)
    requires Recent(wins, list)
    ensures Recent(wins, Without(list, id))
  {
    hide IndexOf;
    if id in list {
      var k := IndexOf(list, id);
      var rest := Without(list, id);
      forall i, j | 0 <= i < j < |rest| && wins[rest[i]].serial > 0
        ensures wins[rest[i]].serial > wins[rest[j]].serial
      {
        var a := if i < k then i else i + 1;
        var b := if j < k then j else j + 1;
        assert rest[i] == list[a] && rest[j] == list[b];
      }
    }
  }

  lemma StampIssued(wins: Windows, next: nat, id: Id)
    requires id in wins && Issued(wins, next)
    ensures Issued(Stamp(wins, id, next + 1), next + 1)
  {
  }

  lemma IssuedBound(wins: Windows, next: nat)
    requires Issued(wins, next)
    ensures forall id :: id in wins ==> wins[id].serial <= next
  {
  }

  lemma StampRecent(wins: Windows, list: seq<Id>, next: nat, id: Id)
    requires id in wins && id !in list && Issued(wins, next) && Recent(wins, list)
    ensures Recent(Stamp(wins, id, next + 1), list)
    ensures Recent(Stamp(wins, id, next + 1), [id] + list)
  {
    hide Issued;
    var r := Stamp(wins, id, next + 1);
    assert forall i :: 0 <= i < |list| ==> r[list[i]] == wins[list[i]] && r[list[i]].serial <= next by {
      IssuedBound(wins, next);
    }
    var long := [id] + list;
    assert forall i :: 1 <= i < |long| ==> long[i] == list[i - 1];
  }

  /** The window stamped with the next serial may stay out of the list or go to its head. */
  lemma StampOrdered(wins: Windows, list: seq<Id>, next: nat, id: Id)
    requires id in wins && id !in list && Ordered(wins, list, next)
    ensures Ordered(Stamp(wins, id, next + 1), list, next + 1)
    ensures Ordered(Stamp(wins, id, next + 1), [id] + list, next + 1)
  {
    hide Issued, Recent, Stamp;
    StampIssued(wins, next, id);
    StampRecent(wins, list, next, id);
  }

  lemma StampAttentive(s: State, id: Id, surface: Surface)
    requires Wf(s) && id in s.wins && s.keyboard
    requires forall a :: a in s.wins && s.wins[a].surface == Some(surface) ==> a == id
    ensures Attentive(Stamp(s.wins, id, s.nextSerial + 1), Some(surface), s.keyboard, s.nextSerial + 1)
  {
  }

  lemma RaiseOrdered(s: State, id: Id)
    requires Wf(s) && id in s.wins && Ordered(s.wins, s.toplevels, s.nextSerial)
    ensures Ordered(Stamp(s.wins, id, s.nextSerial + 1), RaisedList(s, id), s.nextSerial + 1)
  {
    hide Surfaced, Issued, Recent, IndexOf;
    UnlinkRecent(s.wins, s.toplevels, id);
    assert id !in Without(s.toplevels, id);
    StampOrdered(s.wins, Without(s.toplevels, id), s.nextSerial, id);
  }

  /** What giving a window the focus does to the invariants. */
  lemma Raise(s: State, id: Id, surface: Surface)
    requires Wf(s) && id in s.wins && s.wins[id].mapped
    requires forall a :: a in s.wins && s.wins[a].surface == Some(surface) ==> a == id
    ensures var wins := Stamp(s.wins, id, s.nextSerial + 1);
      && Linked(s.spaces, wins, RaisedList(s, id), s.xsurfaces) && Surfaced(wins)
      && (Ordered(s.wins, s.toplevels, s.nextSerial) ==> Ordered(wins, RaisedList(s, id), s.nextSerial + 1))
      && (s.keyboard ==> Attentive(wins, Some(surface), s.keyboard, s.nextSerial + 1))
  {
    StampLinked(s, id);
    if Ordered(s.wins, s.toplevels, s.nextSerial) {
      RaiseOrdered(s, id);
    }
    if s.keyboard {
      StampAttentive(s, id, surface);
    }
  }

  /** `kum_focus_toplevel`; a pointer click may name a popup's surface instead of the window's own. */
  function FocusToplevel(s: State, id: Id, surface: Surface): (r: State)
    requires Wf(s) && id in s.wins && s.wins[id].kind == Xdg && s.wins[id].mapped
    requires forall a :: a in s.wins && s.wins[a].surface == Some(surface) ==> a == id
    ensures Wf(r) && Refocused(s, r) && Tame(s, r)
  {
    if s.locked || s.seat == Some(surface) then s
    else
      Raise(s, id, surface);
      s.(focusedX := None,
         toplevels := [id] + Without(s.toplevels, id),
         focused := Some(id),
         nextSerial := s.nextSerial + 1,
         wins := Stamp(s.wins, id, s.nextSerial + 1),
         seat := if s.keyboard then Some(surface) else s.seat)
  }

  /** `kum_focus_xwayland_surface`. */
  function FocusX(s: State, id: Id): (r: State)
    requires Wf(s) && id in s.wins && s.wins[id].kind == X11 && s.wins[id].mapped
    ensures Wf(r) && Refocused(s, r) && Tame(s, r)
  {
    if s.locked || s.seat == s.wins[id].surface then s
    else
      Raise(s, id, s.wins[id].surface.value);
      s.(focused := None,
         focusedX := Some(id),
         nextSerial := s.nextSerial + 1,
         wins := Stamp(s.wins, id, s.nextSerial + 1),
         seat := if s.keyboard then s.wins[id].surface else s.seat)
  }

  /** Focuses a window through its own surface. */
  function Focus(s: State, id: Id): (r: State)
    requires Wf(s) && id in s.wins && s.wins[id].mapped
    ensures Wf(r) && Refocused(s, r) && Tame(s, r)
  {
    if s.wins[id].kind == Xdg then FocusToplevel(s, id, s.wins[id].surface.value) else FocusX(s, id)
  }

  /** The window a workspace hands the focus to: its first mapped xdg window, else its first mapped X11 one. */
  function FocusTarget(s: State, w: WsIx): (r: Option<Id>)
    requires Wf(s)
    ensures r.Some? ==> r.value in s.wins && s.wins[r.value].mapped && s.wins[r.value].ws == w
    ensures r.None? ==> forall id :: id in s.wins && s.wins[id].ws == w ==> !s.wins[id].mapped
  {
    var t := FirstMapped(s.wins, s.spaces[w].list);
    if t.Some? then t else FirstMappedOn(s.wins, s.xsurfaces, w)
  }

  function FocusFirst(s: State, w: WsIx): (r: State)
    requires Wf(s)
    ensures Wf(r) && Refocused(s, r) && Tame(s, r)
  {
    var t := FocusTarget(s, w);
    if t.Some? then Focus(s, t.value) else s
  }

  /** Forgets the focused xdg window and takes the keyboard away from it. */
  function Unfocus(s: State): (r: State)
    requires Wf(s)
    ensures Wf(r) && Tame(s, r) && r == s.(focused := None, seat := None)
  {
    var r := s.(focused := None, seat := None);
    CalmIsTame(s, r);
    r
  }

  /** Forgets the focused X11 window and takes the keyboard away from it. */
  function UnfocusX(s: State): (r: State)
    requires Wf(s)
    ensures Wf(r) && Tame(s, r) && r == s.(focusedX := None, seat := None)
  {
    var r := s.(focusedX := None, seat := None);
    CalmIsTame(s, r);
    r
  }

  /** Drops the xdg focus pointer if it points into workspace `w`. */
  function DropXdgFocusOn(s: State, w: WsIx): (r: State)
    requires Wf(s)
    ensures Wf(r) && Tame(s, r) && r == s.(focused := r.focused, seat := r.seat)
  {
    if s.focused.Some? && s.wins[s.focused.value].ws == w then Unfocus(s) else s
  }

  /** Drops whichever focus pointer points into workspace `w`. */
  function DropFocusOn(s: State, w: WsIx): (r: State)
    requires Wf(s)
    ensures Wf(r) && Tame(s, r)
    ensures r == s.(focused := r.focused, focusedX := r.focusedX, seat := r.seat)
  {
    var a := DropXdgFocusOn(s, w);
    if a.focusedX.Some? && a.wins[a.focusedX.value].ws == w then UnfocusX(a) else a
  }

  // ---------------------------------------------------------------- workspaces and outputs

  function Enable(spaces: seq<Space>, w: WsIx, on: bool): (r: seq<Space>)
    requires |spaces| == COUNT
    ensures |r| == COUNT
    ensures forall v :: 0 <= v < COUNT ==> r[v] == if v == w then spaces[v].(enabled := on) else spaces[v]
  {
    spaces[w := spaces[w].(enabled := on)]
  }

  /** Linking does not depend on layouts or enabled flags. */
  lemma EnableLinked(spaces: seq<Space>, r: seq<Space>, s: State)
    requires Linked(spaces, s.wins, s.toplevels, s.xsurfaces)
    requires |r| == COUNT && forall w :: 0 <= w < COUNT ==> r[w].list == spaces[w].list
    ensures Linked(r, s.wins, s.toplevels, s.xsurfaces)
  {
  }

  /** The outputs after output `k` takes `index`, and `o`, if any, takes over what `k` showed. */
  function SwapOutputs(outputs: seq<Output>, k: nat, index: WsIx): (r: seq<Output>)
    requires k < |outputs| && outputs[k].active != index
    ensures |r| == |outputs|
  {
    var prev := outputs[k].active;
    var o := OtherShowing(outputs, k, index);
    var a := if o >= 0 then outputs[o := outputs[o].(previous := index, active := prev)] else outputs;
    a[k := a[k].(previous := prev, active := index)]
  }

  /** Both exchanged workspaces' windows move along with the outputs that now show them. */
  function SwapWindows(s: State, k: nat, index: WsIx): (r: Windows)
    requires k < |s.outputs| && s.outputs[k].active != index
    ensures r.Keys == s.wins.Keys && forall id :: id in r ==> r[id] == s.wins[id].(box := r[id].box)
  {
    var o := OtherShowing(s.outputs, k, index);
    if o < 0 then s.wins
    else
      var to := s.outputs[o].area;
      var from := s.outputs[k].area;
      Translate(Translate(s.wins, s.outputs[k].active, to.x - from.x, to.y - from.y),
                index, from.x - to.x, from.y - to.y)
  }

  lemma SwapExclusive(outputs: seq<Output>, spaces: seq<Space>, k: nat, index: WsIx)
    requires k < |outputs| && outputs[k].active != index && |spaces| == COUNT
    requires Exclusive(outputs, spaces)
    ensures Exclusive(SwapOutputs(outputs, k, index),
              Enable(Enable(spaces, outputs[k].active, OtherShowing(outputs, k, index) >= 0), index, true))
  {
    hide OutputFor, OtherShowing;
    var prev := outputs[k].active;
    var o := OtherShowing(outputs, k, index);
    var r := SwapOutputs(outputs, k, index);
    assert forall i :: 0 <= i < |r| ==>
      r[i].active == if i == k then index else if i == o then prev else outputs[i].active;
    forall w | 0 <= w < COUNT
      ensures OutputFor(r, w) >= 0 <==> (w == index || (w != prev && OutputFor(outputs, w) >= 0) || (w == prev && o >= 0))
    {
      assert r[k].active == index && (o >= 0 ==> r[o].active == prev);
      if w != prev && w != index && OutputFor(outputs, w) >= 0 {
        assert r[OutputFor(outputs, w)].active == w;
      }
    }
  }

  /** A switch up to the moment focus is reconsidered. */
  function Shown(s: State, k: nat, index: WsIx): (r: State)
    requires Wf(s) && k < |s.outputs| && s.outputs[k].active != index
    ensures Wf(r) && Tame(s, r)
  {
    var a := s.(wins := SwapWindows(s, k, index));
    RedrawnIsTame(s, a);
    var o := OtherShowing(s.outputs, k, index);
    var spaces := Enable(Enable(s.spaces, s.outputs[k].active, o >= 0), index, true);
    EnableLinked(s.spaces, spaces, a);
    assert Exclusive(s.outputs, s.spaces) ==> Exclusive(SwapOutputs(s.outputs, k, index), spaces) by {
      if Exclusive(s.outputs, s.spaces) {
        SwapExclusive(s.outputs, s.spaces, k, index);
      }
    }
    a.(outputs := SwapOutputs(s.outputs, k, index), spaces := spaces)
  }

  /** `kum_workspace_switch`; `k` outside the output list stands for a null output. */
  function Switch(s: State, k: int, index: int): (r: State)
    requires Wf(s)
    ensures Wf(r) && Tame(s, r)
  {
    if index < 0 || index >= COUNT || k < 0 || k >= |s.outputs| || s.outputs[k].active == index then s
    else FocusFirst(DropFocusOn(Shown(s, k, index), s.outputs[k].active), index)
  }

  /** `action_switch_workspace`: the active workspace's own key returns to the previous one. */
  function KeySwitch(s: State, k: int, index: WsIx): (r: State)
    requires Wf(s)
    ensures Wf(r) && Tame(s, r)
  {
    if k < 0 || k >= |s.outputs| then s
    else Switch(s, k, if s.outputs[k].active == index then s.outputs[k].previous else index)
  }

  /** `kum_workspace_scratchpad_toggle`. */
  function Scratchpad(s: State, k: int): (r: State)
    requires Wf(s)
    ensures Wf(r) && Tame(s, r)
  {
    if k < 0 || k >= |s.outputs| then s
    else Switch(s, k, if s.outputs[k].active == SCRATCH then 0 else SCRATCH)
  }

  /** The workspace lists after a window moves from its list to the head of another one. */
  function Respaced(spaces: seq<Space>, id: Id, home: WsIx, index: WsIx): (r: seq<Space>)
    requires |spaces| == COUNT && home != index
    ensures |r| == COUNT
    ensures forall w :: 0 <= w < COUNT ==> r[w] == spaces[w].(list :=
      if w == home then Without(spaces[w].list, id) else if w == index then [id] + spaces[w].list else spaces[w].list)
  {
    spaces[home := spaces[home].(list := Without(spaces[home].list, id))]
          [index := spaces[index].(list := [id] + spaces[index].list)]
  }

  lemma RelinkLinked(s: State, id: Id, index: WsIx)
    requires Wf(s) && id in s.wins && s.wins[id].kind == Xdg && s.wins[id].ws != index
    ensures Linked(Respaced(s.spaces, id, s.wins[id].ws, index), s.wins[id := s.wins[id].(ws := index)],
                   s.toplevels, s.xsurfaces)
  {
    hide Surfaced, Respaced, Without, IndexOf;
    assert id !in s.spaces[index].list;
  }

  lemma RelinkCalm(s: State, r: State, id: Id, index: WsIx)
    requires Wf(s) && id in s.wins && s.wins[id].kind == Xdg && s.wins[id].ws != index
    requires r == s.(spaces := Respaced(s.spaces, id, s.wins[id].ws, index),
                     wins := s.wins[id := s.wins[id].(ws := index)])
    ensures Calm(s, r)
  {
    hide Linked, Surfaced, FocusLive, Without;
  }

  /** Unlinks an xdg window from its workspace list and links it at the head of another one. */
  function Relink(s: State, id: Id, index: WsIx): (r: State)
    requires Wf(s) && id in s.wins && s.wins[id].kind == Xdg && s.wins[id].ws != index
    ensures Wf(r) && Calm(s, r) && Tame(s, r)
  {
    hide Linked, Surfaced, Calm, Tame;
    var r := s.(spaces := Respaced(s.spaces, id, s.wins[id].ws, index),
                wins := s.wins[id := s.wins[id].(ws := index)]);
    RelinkLinked(s, id, index);
    RelinkCalm(s, r, id, index);
    CalmIsTame(s, r);
    r
  }

  /** A window arriving on a workspace: laid out if the workspace is shown, else its node is disabled. */
  function Land(s: State, id: Id, w: WsIx): (r: State)
    requires Wf(s) && id in s.wins
    ensures Wf(r) && OnlyRedrawn(s, r) && Tame(s, r)
  {
    if OutputFor(s.outputs, w) >= 0 then Tidy(s, w) else SetShown(s, id, false)
  }

  /** A window is still there, of the same kind and mapped or not as before. */
  ghost predicate Survives(s: State, r: State, id: Id)
    requires id in s.wins
  {
    && id in r.wins && r.wins[id].kind == s.wins[id].kind && r.wins[id].mapped == s.wins[id].mapped
    && r.wins[id].surface == s.wins[id].surface
  }

  /** A moved window after both affected workspaces are laid out again, the destination first. */
  function Rehomed(s: State, id: Id, index: WsIx): (r: State)
    requires Wf(s) && id in s.wins && s.wins[id].kind == Xdg && s.wins[id].ws != index
    ensures Wf(r) && Tame(s, r) && Survives(s, r, id)
  {
    Tidy(Land(Relink(s, id, index), id, index), s.wins[id].ws)
  }

  /** If the window that just left `w` had the focus, it loses it, to another window if `w` is shown. */
  function Release(s: State, id: Id, w: WsIx): (r: State)
    requires Wf(s) && id in s.wins
    ensures Wf(r) && Tame(s, r) && Survives(s, r, id)
  {
    if s.focused != Some(id) then s
    else if OutputFor(s.outputs, w) >= 0 then FocusFirst(Unfocus(s), w)
    else Unfocus(s)
  }

  /** `kum_workspace_move_toplevel`. */
  function MoveToplevel(s: State, id: Id, index: int): (r: State)
    requires Wf(s) && id in s.wins && s.wins[id].kind == Xdg
    ensures Wf(r) && Tame(s, r) && Survives(s, r, id)
  {
    if index < 0 || index >= COUNT || index == s.wins[id].ws then s
    else Release(Rehomed(s, id, index), id, s.wins[id].ws)
  }

  /** An X11 window's workspace field changes; on a hidden workspace its node is disabled. */
  function RehomeX(s: State, id: Id, index: WsIx): (r: State)
    requires Wf(s) && id in s.wins && s.wins[id].kind == X11
    ensures Wf(r) && Tame(s, r) && id in r.wins
  {
    hide Linked, Surfaced, Ordered, Attentive, Exclusive;
    var hidden := OutputFor(s.outputs, index) == -1;
    var wins := s.wins[id := s.wins[id].(ws := index, shown := s.wins[id].shown && !hidden)];
    SameLinks(s, wins);
    CalmIsTame(s, s.(wins := wins));
    s.(wins := wins)
  }

  /** `kum_workspace_move_xwayland_surface`. */
  function MoveX(s: State, id: Id, index: int): (r: State)
    requires Wf(s) && id in s.wins && s.wins[id].kind == X11
    ensures Wf(r) && Tame(s, r) && id in r.wins
  {
    if index < 0 || index >= COUNT || index == s.wins[id].ws then s
    else
      var a := RehomeX(s, id, index);
      if a.focusedX == Some(id) then UnfocusX(a) else a
  }

  /** `action_move_to_workspace`. */
  function KeyMove(s: State, index: int): (r: State)
    requires Wf(s)
    ensures Wf(r) && Tame(s, r)
  {
    if s.focused.Some? then MoveToplevel(s, s.focused.value, index)
    else if s.focusedX.Some? then MoveX(s, s.focusedX.value, index)
    else s
  }

  /** `next_free_workspace`: the least workspace no output shows, or 0 when all are shown. */
  function NextFree(outputs: seq<Output>, from: nat := 0): (r: WsIx)
    requires from <= COUNT
    requires forall w :: 0 <= w < from ==> OutputFor(outputs, w) != -1
    ensures OutputFor(outputs, r) == -1 || (r == 0 && forall w :: 0 <= w < COUNT ==> OutputFor(outputs, w) != -1)
    ensures OutputFor(outputs, r) == -1 ==> forall w :: 0 <= w < r ==> OutputFor(outputs, w) != -1
    decreases COUNT - from
  {
    if from == COUNT then 0
    else if OutputFor(outputs, from) == -1 then from
    else NextFree(outputs, from + 1)
  }

  /** `kum_new_output`. */
  function Connect(s: State, area: Box): (r: State)
    requires Wf(s)
    ensures Wf(r) && Mild(s, r) && Keen(s, r)
  {
    var w := NextFree(s.outputs);
    var spaces := Enable(s.spaces, w, true);
    EnableLinked(s.spaces, spaces, s);
    s.(outputs := [Output(area, w, 0)] + s.outputs, spaces := spaces)
  }

  /** `migrate_workspace` up to the moment focus is reconsidered: the first output takes over `w`. */
  function TakeOver(s: State, w: WsIx): (r: State)
    requires Wf(s) && |s.outputs| > 0
    ensures Wf(r) && Mild(s, r) && Keen(s, r)
  {
    var spaces := Enable(Enable(s.spaces, s.outputs[0].active, false), w, true);
    EnableLinked(s.spaces, spaces, s);
    var a := s.(outputs := s.outputs[0 := s.outputs[0].(active := w)], spaces := spaces);
    if a.spaces[w].layout == Tile then Arrange(a, a.outputs[0].area, w) else a
  }

  /** The outputs left after output `k` is gone and the first one has taken over its workspace. */
  function Remaining(outputs: seq<Output>, k: nat): (r: seq<Output>)
    requires k < |outputs|
  {
    var rest := outputs[..k] + outputs[k + 1..];
    if |rest| > 0 then rest[0 := rest[0].(active := outputs[k].active)] else rest
  }

  /** `output_destroy`; only the xdg focus pointer is dropped here. */
  function Disconnect(s: State, k: nat): (r: State)
    requires Wf(s) && k < |s.outputs|
    ensures Wf(r) && Mild(s, r) && Keen(s, r)
  {
    var w := s.outputs[k].active;
    var a := DropXdgFocusOn(s.(outputs := s.outputs[..k] + s.outputs[k + 1..]), w);
    if |a.outputs| > 0 then FocusFirst(TakeOver(a, w), w)
    else
      EnableLinked(a.spaces, Enable(a.spaces, w, false), a);
      a.(spaces := Enable(a.spaces, w, false))
  }

  lemma AreaExclusive(outputs: seq<Output>, spaces: seq<Space>, k: nat, area: Box)
    requires k < |outputs| && Exclusive(outputs, spaces)
    ensures Exclusive(outputs[k := outputs[k].(area := area)], spaces)
  {
    hide OutputFor;
    var r := outputs[k := outputs[k].(area := area)];
    assert forall i :: 0 <= i < |r| ==> r[i].active == outputs[i].active;
    forall w | 0 <= w < COUNT
      ensures OutputFor(r, w) >= 0 <==> OutputFor(outputs, w) >= 0
    {
      if OutputFor(outputs, w) >= 0 {
        assert r[OutputFor(outputs, w)].active == w;
      }
    }
  }

  /** `kum_output_configure_all`, for one output: the area changes and nothing is laid out again. */
  function ReplaceArea(s: State, k: nat, area: Box): (r: State)
    requires Wf(s) && k < |s.outputs|
    ensures Wf(r) && Tame(s, r)
  {
    assert Exclusive(s.outputs, s.spaces) ==> Exclusive(s.outputs[k := s.outputs[k].(area := area)], s.spaces) by {
      if Exclusive(s.outputs, s.spaces) {
        AreaExclusive(s.outputs, s.spaces, k, area);
      }
    }
    s.(outputs := s.outputs[k := s.outputs[k].(area := area)])
  }

  /** `recalculate_usable_area`. */
  function SetArea(s: State, k: nat, area: Box): (r: State)
    requires Wf(s) && k < |s.outputs|
    ensures Wf(r) && Tame(s, r)
  {
    Arrange(ReplaceArea(s, k, area), area, s.outputs[k].active)
  }

  function SetLayout(s: State, w: WsIx, layout: Layout): (r: State)
    requires Wf(s)
    ensures Wf(r) && Calm(s, r) && Tame(s, r)
  {
    var r := s.(spaces := s.spaces[w := s.spaces[w].(layout := layout)]);
    EnableLinked(s.spaces, r.spaces, s);
    CalmIsTame(s, r);
    r
  }

  /** The `layout` command and `action_layout_monocle`: choose a layout for an output's workspace. */
  function ChooseLayout(s: State, k: int, layout: Layout): (r: State)
    requires Wf(s)
    ensures Wf(r) && Tame(s, r)
  {
    if k < 0 || k >= |s.outputs| then s
    else
      var w := s.outputs[k].active;
      Arrange(SetLayout(s, w, layout), s.outputs[k].area, w)
  }

  /** `kum_workspace_toggle_layout`. */
  function ToggleLayout(s: State, k: int): (r: State)
    requires Wf(s)
    ensures Wf(r) && Tame(s, r)
  {
    if k < 0 || k >= |s.outputs| then s
    else ChooseLayout(s, k, if s.spaces[s.outputs[k].active].layout == Floating then Tile else Floating)
  }

  /** Toggling the focused window's floating flag lays its workspace out. */
  predicate TogglesFloating(s: State)
    requires |s.spaces| == COUNT && (s.focused.Some? ==> s.focused.value in s.wins)
  {
    s.focused.Some? && s.spaces[s.wins[s.focused.value].ws].layout == Tile
  }

  /** `action_toggle_floating`; lays out with the area of the output under the cursor, which has to be there. */
  function ToggleFloating(s: State, k: int): (r: State)
    requires Wf(s) && (TogglesFloating(s) ==> 0 <= k < |s.outputs|)
    ensures Wf(r) && Tame(s, r)
  {
    if !TogglesFloating(s) then s
    else
      var id := s.focused.value;
      Arrange(SetFloating(s, id, !s.wins[id].floating), s.outputs[k].area, s.wins[id].ws)
  }

  /** Windows the layout manages live on a shown workspace: the handlers that lay out on behalf of
      one window take the output showing it for granted. */
  predicate OnScreenIfTiled(s: State, id: Id)
    requires id in s.wins && |s.spaces| == COUNT
  {
    s.spaces[s.wins[id].ws].layout == Tile && !s.wins[id].floating ==> OutputFor(s.outputs, s.wins[id].ws) >= 0
  }

  /** `kum_toplevel_begin_interactive`: grabbing a tiled window floats it. */
  function BeginInteractive(s: State, id: Id): (r: State)
    requires Wf(s) && id in s.wins && s.wins[id].kind == Xdg && OnScreenIfTiled(s, id)
    ensures Wf(r) && Tame(s, r)
  {
    var w := s.wins[id].ws;
    if s.spaces[w].layout != Tile || s.wins[id].floating then s else Tidy(SetFloating(s, id, true), w)
  }

  /** `kum_tiling_swap_master` goes on to look for the master only then. */
  predicate SeeksMaster(s: State)
    requires |s.spaces| == COUNT && (s.focused.Some? ==> s.focused.value in s.wins)
  {
    s.focused.Some? &&
    var id := s.focused.value;
    s.spaces[s.wins[id].ws].layout == Tile && !s.wins[id].floating
  }

  /** The search, if there is one, is defined only when the list's head is tiled. */
  predicate HeadTiled(s: State)
    requires |s.spaces| == COUNT && (s.focused.Some? ==> s.focused.value in s.wins)
  {
    SeeksMaster(s) ==>
      var list := s.spaces[s.wins[s.focused.value].ws].list;
      |list| > 0 && list[0] in s.wins && s.wins[list[0]].mapped && !s.wins[list[0]].floating
  }

  lemma TailLinked(s: State, id: Id, r: seq<Space>)
    requires Wf(s) && id in s.wins && s.wins[id].kind == Xdg && |r| == COUNT
    requires forall w :: 0 <= w < COUNT ==>
      r[w].list == if w == s.wins[id].ws then Without(s.spaces[w].list, id) + [id] else s.spaces[w].list
    ensures Linked(r, s.wins, s.toplevels, s.xsurfaces)
  {
    hide Surfaced, Without, IndexOf;
    assert id !in Without(s.spaces[s.wins[id].ws].list, id);
  }

  /** An xdg window goes to the tail of its workspace's list. */
  function ToTail(s: State, id: Id): (r: State)
    requires Wf(s) && id in s.wins && s.wins[id].kind == Xdg
    ensures Wf(r) && Tame(s, r)
  {
    hide Linked, Surfaced, Ordered, Attentive, Exclusive;
    var w := s.wins[id].ws;
    var r := s.(spaces := s.spaces[w := s.spaces[w].(list := Without(s.spaces[w].list, id) + [id])]);
    TailLinked(s, id, r.spaces);
    CalmIsTame(s, r);
    r
  }

  /** `kum_tiling_swap_master`: unless it is the master, the focused window goes to the tail. */
  function SwapMaster(s: State): (r: State)
    requires Wf(s) && HeadTiled(s)
    ensures Wf(r) && Tame(s, r)
  {
    if !SeeksMaster(s) then s
    else
      var id := s.focused.value;
      var w := s.wins[id].ws;
      if s.spaces[w].list[0] == id then s else Tidy(ToTail(s, id), w)
  }

  function ClampRatio(r: real): real {
    if r < 0.1 then 0.1 else if r > 0.9 then 0.9 else r
  }

  /** `kum_tiling_resize`; `w` and `h` are the focused window's current size. */
  function Resize(s: State, dw: int, dh: int, w: int, h: int): (r: State)
    requires Wf(s)
    ensures Wf(r) && Tame(s, r)
  {
    if s.focused.None? then s
    else
      var id := s.focused.value;
      var ws := s.wins[id].ws;
      if s.spaces[ws].layout == Tile then
        var a := s.(ratio := ClampRatio(s.ratio + dw as real / 2000.0));
        CalmIsTame(s, a);
        Tidy(a, ws)
      else
        SetSize(s, id, if w + dw < 120 then 120 else w + dw, if h + dh < 80 then 80 else h + dh)
  }

  // ---------------------------------------------------------------- window life cycle

  function WorkspaceUnder(s: State, k: int): WsIx {
    if 0 <= k < |s.outputs| then s.outputs[k].active else 0
  }

  const NOWHERE := Box(0, 0, 0, 0)

  /** A surface no live window has. */
  ghost predicate Unclaimed(s: State, surface: Surface) {
    forall id :: id in s.wins ==> s.wins[id].surface != Some(surface)
  }

  lemma EnabledSame(outputs: seq<Output>, spaces: seq<Space>, r: seq<Space>)
    requires Exclusive(outputs, spaces) && |r| == COUNT
    requires forall w :: 0 <= w < COUNT ==> r[w].enabled == spaces[w].enabled
    ensures Exclusive(outputs, r)
  {
  }

  /** A window nobody has focused yet joins the table and, if `list` says so, the head of `toplevels`. */
  lemma Joined(s: State, id: Id, win: Window)
    requires Wf(s) && id !in s.wins && win.serial == 0 && !win.mapped
    requires win.kind == Xdg ==> win.surface.Some?
    requires win.surface.Some? ==> Unclaimed(s, win.surface.value)
    ensures Surfaced(s.wins[id := win])
    ensures win.surface.None? || win.surface != s.seat ==> Attentive(s.wins, s.seat, s.keyboard, s.nextSerial) ==>
      Attentive(s.wins[id := win], s.seat, s.keyboard, s.nextSerial)
    ensures win.surface.None? || win.surface != s.seat ==> Barred(s.wins, s.seat, s.locked) ==>
      Barred(s.wins[id := win], s.seat, s.locked)
    ensures Ordered(s.wins, s.toplevels, s.nextSerial) ==>
      Ordered(s.wins[id := win], [id] + s.toplevels, s.nextSerial) && Ordered(s.wins[id := win], s.toplevels, s.nextSerial)
  {
    hide Linked, FocusLive;
    if Ordered(s.wins, s.toplevels, s.nextSerial) {
      var long := [id] + s.toplevels;
      var wins := s.wins[id := win];
      assert forall i :: 0 <= i < |s.toplevels| ==> wins[s.toplevels[i]] == s.wins[s.toplevels[i]];
      assert forall i :: 1 <= i < |long| ==> long[i] == s.toplevels[i - 1];
      assert wins[long[0]].serial == 0;
    }
  }

  lemma HeadLinked(s: State, id: Id, win: Window, r: seq<Space>)
    requires Wf(s) && id !in s.wins && win.kind == Xdg && |r| == COUNT
    requires forall w :: 0 <= w < COUNT ==>
      r[w].list == if w == win.ws then [id] + s.spaces[w].list else s.spaces[w].list
    ensures Linked(r, s.wins[id := win], [id] + s.toplevels, s.xsurfaces)
  {
    hide Surfaced;
    assert id !in s.toplevels && id !in s.spaces[win.ws].list;
  }

  /** `kum_new_xdg_toplevel`. */
  function NewToplevel(s: State, k: int, id: Id, surface: Surface): (r: State)
    requires Wf(s) && id !in s.wins && Unclaimed(s, surface)
    ensures Wf(r) && Mild(s, r) && (Exclusive(s.outputs, s.spaces) ==> Exclusive(r.outputs, r.spaces))
    ensures s.seat != Some(surface) ==> Keen(s, r)
  {
    hide Linked, Surfaced, Ordered, Attentive, Exclusive, Unclaimed;
    var w := WorkspaceUnder(s, k);
    var win := Window(Xdg, w, Some(surface), false, false, true, false, 0, NOWHERE);
    var spaces := s.spaces[w := s.spaces[w].(list := [id] + s.spaces[w].list)];
    Joined(s, id, win);
    HeadLinked(s, id, win, spaces);
    assert Exclusive(s.outputs, s.spaces) ==> Exclusive(s.outputs, spaces) by {
      if Exclusive(s.outputs, s.spaces) {
        EnabledSame(s.outputs, s.spaces, spaces);
      }
    }
    s.(wins := s.wins[id := win], toplevels := [id] + s.toplevels, spaces := spaces)
  }

  function SetMapped(s: State, id: Id, on: bool): (r: State)
    requires Wf(s) && id in s.wins && s.wins[id].surface.Some?
    requires !on ==> s.focused != Some(id) && s.focusedX != Some(id)
    ensures Wf(r) && Tame(s, r)
    ensures r == s.(wins := s.wins[id := s.wins[id].(mapped := on)])
  {
    var wins := s.wins[id := s.wins[id].(mapped := on)];
    SameLinks(s, wins);
    CalmIsTame(s, s.(wins := wins));
    s.(wins := wins)
  }

  /** What a rule makes of a window, besides its workspace. */
  function Restyled(win: Window, u: Rule): Window {
    var w := if u.w > 0 && u.h > 0 then u.w else win.box.w;
    var h := if u.w > 0 && u.h > 0 then u.h else win.box.h;
    var x := if u.x != 0 || u.y != 0 then u.x else win.box.x;
    var y := if u.x != 0 || u.y != 0 then u.y else win.box.y;
    win.(floating := win.floating || u.floating, box := Box(x, y, w, h), fullscreen := win.fullscreen || u.fullscreen)
  }

  /** The part of a rule that does not change the workspace. */
  function Restyle(s: State, id: Id, u: Rule): (r: State)
    requires Wf(s) && id in s.wins
    ensures Wf(r) && OnlyRedrawn(s, r) && Tame(s, r)
  {
    var r := s.(wins := s.wins[id := Restyled(s.wins[id], u)]);
    RedrawnIsTame(s, r);
    r
  }

  /** `kum_rules_apply` with the rule it selected, if any. */
  function ApplyRule(s: State, id: Id, rule: Option<Rule>): (r: State)
    requires Wf(s) && id in s.wins && s.wins[id].kind == Xdg
    ensures Wf(r) && Tame(s, r) && Survives(s, r, id)
  {
    if rule.None? then s else Restyle(MoveToplevel(s, id, rule.value.workspace), id, rule.value)
  }

  /** The position that centres something in an area. */
  function CentredX(area: Box, w: int): int {
    area.x + CDiv(area.w - w, 2)
  }

  function CentredY(area: Box, h: int): int {
    area.y + CDiv(area.h - h, 2)
  }

  /** Where `toplevel_map` puts a window: laid out, or centred on the output showing its workspace. */
  function Settle(s: State, id: Id, gw: int, gh: int): (r: State)
    requires Wf(s) && id in s.wins
    ensures Wf(r) && OnlyRedrawn(s, r) && Tame(s, r)
  {
    var w := s.wins[id].ws;
    var k := OutputFor(s.outputs, w);
    if k < 0 then s
    else
      var area := s.outputs[k].area;
      if s.spaces[w].layout == Tile && !s.wins[id].floating then Arrange(s, area, w)
      else SetPos(s, id, CentredX(area, gw), CentredY(area, gh))
  }

  /** `toplevel_map`; `gw` and `gh` are the client's own size. */
  function MapToplevel(s: State, id: Id, gw: int, gh: int, rule: Option<Rule>): (r: State)
    requires Wf(s) && id in s.wins && s.wins[id].kind == Xdg && OnScreenIfTiled(s, id)
    ensures Wf(r) && Tame(s, r)
  {
    var a := ApplyRule(Settle(SetMapped(s, id, true), id, gw, gh), id, rule);
    FocusToplevel(a, id, a.wins[id].surface.value)
  }

  /** `toplevel_unmap`: the surface is already unmapped when the handler runs. */
  function UnmapToplevel(s: State, id: Id): (r: State)
    requires Wf(s) && id in s.wins && s.wins[id].kind == Xdg
    ensures Wf(r) && Tame(s, r)
  {
    var a := if s.focused == Some(id) then s.(focused := None) else s;
    CalmIsTame(s, a);
    var b := SetMapped(a, id, false);
    var w := s.wins[id].ws;
    if s.spaces[w].layout == Tile then Tidy(b, w) else b
  }

  /** The window table and lists after a window is gone. */
  lemma Forgotten(s: State, r: State, id: Id)
    requires Wf(s) && id in s.wins && r.wins == s.wins - {id}
    requires r.toplevels == Without(s.toplevels, id) && r.xsurfaces == Without(s.xsurfaces, id)
    requires |r.spaces| == COUNT
    requires forall w :: 0 <= w < COUNT ==> r.spaces[w].list == Without(s.spaces[w].list, id)
    requires r.nextSerial == s.nextSerial && r.seat == s.seat && r.keyboard == s.keyboard && r.locked == s.locked
    ensures Linked(r.spaces, r.wins, r.toplevels, r.xsurfaces) && Surfaced(r.wins)
    ensures Ordered(s.wins, s.toplevels, s.nextSerial) ==> Ordered(r.wins, r.toplevels, r.nextSerial)
    ensures Attentive(s.wins, s.seat, s.keyboard, s.nextSerial) ==>
      Attentive(r.wins, r.seat, r.keyboard, r.nextSerial)
    ensures Barred(s.wins, s.seat, s.locked) ==> Barred(r.wins, r.seat, r.locked)
  {
    if Ordered(s.wins, s.toplevels, s.nextSerial) {
      UnlinkRecent(s.wins, s.toplevels, id);
    }
  }

  /** `toplevel_destroy` of an unmapped window. */
  function DestroyToplevel(s: State, id: Id): (r: State)
    requires Wf(s) && id in s.wins && s.wins[id].kind == Xdg && !s.wins[id].mapped
    ensures Wf(r) && Tame(s, r)
    ensures id !in r.wins && id !in r.toplevels && (forall w :: 0 <= w < COUNT ==> id !in r.spaces[w].list)
    ensures r.focused != Some(id) && forall x :: x in s.wins && x != id ==> x in r.wins && r.wins[x] == s.wins[x]
  {
    var w := s.wins[id].ws;
    var r := s.(wins := s.wins - {id},
                toplevels := Without(s.toplevels, id),
                spaces := s.spaces[w := s.spaces[w].(list := Without(s.spaces[w].list, id))]);
    Forgotten(s, r, id);
    r
  }

  /** `handle_new_xwayland_surface`. */
  function NewX(s: State, k: int, id: Id): (r: State)
    requires Wf(s) && id !in s.wins
    ensures Wf(r) && Tame(s, r)
  {
    hide Surfaced, Ordered, Attentive, Exclusive;
    var win := Window(X11, WorkspaceUnder(s, k), None, false, false, true, false, 0, NOWHERE);
    assert id !in s.xsurfaces;
    Joined(s, id, win);
    s.(wins := s.wins[id := win], xsurfaces := [id] + s.xsurfaces)
  }

  /** An X11 window gains or loses its surface. */
  lemma Resurfaced(wins: Windows, id: Id, surface: Option<Surface>)
    requires id in wins && Surfaced(wins) && wins[id].kind == X11 && !wins[id].mapped
    requires surface.Some? ==> forall a :: a in wins ==> wins[a].surface != surface
    ensures var r := wins[id := wins[id].(surface := surface)];
      && Surfaced(r)
      && (forall list, next :: Ordered(wins, list, next) ==> Ordered(r, list, next))
      && (forall seat, keyboard, next :: (surface.None? || seat != surface) && Attentive(wins, seat, keyboard, next) ==>
            Attentive(r, seat, keyboard, next))
      && (forall seat, locked :: (surface.None? || seat != surface) && Barred(wins, seat, locked) ==> Barred(r, seat, locked))
  {
    var r := wins[id := wins[id].(surface := surface)];
    assert forall a :: a in wins ==> r[a].serial == wins[a].serial;
  }

  /** `xwayland_surface_associate` and `_dissociate`. */
  function Associate(s: State, id: Id, surface: Option<Surface>): (r: State)
    requires Wf(s) && id in s.wins && s.wins[id].kind == X11 && !s.wins[id].mapped
    requires surface.Some? ==> Unclaimed(s, surface.value)
    ensures Wf(r) && Mild(s, r) && (Exclusive(s.outputs, s.spaces) ==> Exclusive(r.outputs, r.spaces))
    ensures surface.None? || s.seat != surface ==> Keen(s, r)
  {
    hide Linked, Surfaced, Ordered, Attentive, Exclusive;
    var wins := s.wins[id := s.wins[id].(surface := surface)];
    SameLinks(s, wins);
    Resurfaced(s.wins, id, surface);
    s.(wins := wins)
  }

  /** What the size and position of a rule make of an X11 window; `own` is the rectangle the client asked for. */
  function RestyledX(win: Window, own: Box, u: Rule): Window {
    if u.w > 0 || u.h > 0 || u.x != 0 || u.y != 0 then
      win.(box := Box(if u.x != 0 then u.x else own.x, if u.y != 0 then u.y else own.y,
                      if u.w > 0 then u.w else own.w, if u.h > 0 then u.h else own.h))
    else win
  }

  function RestyleX(s: State, id: Id, own: Box, u: Rule): (r: State)
    requires Wf(s) && id in s.wins
    ensures Wf(r) && OnlyRedrawn(s, r) && Tame(s, r)
  {
    var r := s.(wins := s.wins[id := RestyledX(s.wins[id], own, u)]);
    RedrawnIsTame(s, r);
    r
  }

  /** `kum_xwayland_set_fullscreen`: the window covers the output showing its workspace, if there is one,
      whose box in the output layout is `full`. */
  function CoverX(s: State, id: Id, full: Box): (r: State)
    requires Wf(s) && id in s.wins
    ensures Wf(r) && OnlyRedrawn(s, r) && Tame(s, r)
  {
    var a := if OutputFor(s.outputs, s.wins[id].ws) >= 0 then SetSize(SetPos(s, id, full.x, full.y), id, full.w, full.h) else s;
    SetFullscreen(a, id, true)
  }

  /** `kum_rules_apply_xwayland` with the rule it selected, if any. */
  function ApplyRuleX(s: State, id: Id, own: Box, full: Box, rule: Option<Rule>): (r: State)
    requires Wf(s) && id in s.wins && s.wins[id].kind == X11
    ensures Wf(r) && Tame(s, r) && id in r.wins
  {
    if rule.None? then s
    else
      var a := RestyleX(MoveX(s, id, rule.value.workspace), id, own, rule.value);
      if rule.value.fullscreen then CoverX(a, id, full) else a
  }

  /** An X11 window is centred on the first output, if there is one, whose box in the output layout is `obox`. */
  function CentreX(s: State, id: Id, obox: Box, own: Box): (r: State)
    requires Wf(s) && id in s.wins
    ensures Wf(r) && OnlyRedrawn(s, r) && Tame(s, r)
  {
    if |s.outputs| > 0 then SetPos(s, id, CentredX(obox, own.w), CentredY(obox, own.h)) else s
  }

  /** `xwayland_surface_map`: the handler centres the window but does not focus it; `own` is the rectangle
      the client asked for. */
  function MapX(s: State, id: Id, obox: Box, own: Box, full: Box, rule: Option<Rule>): (r: State)
    requires Wf(s) && id in s.wins && s.wins[id].kind == X11 && s.wins[id].surface.Some?
    ensures Wf(r) && Tame(s, r)
  {
    SetShown(ApplyRuleX(CentreX(SetMapped(s, id, true), id, obox, own), id, own, full, rule), id, true)
  }

  /** `xwayland_surface_unmap`. */
  function UnmapX(s: State, id: Id): (r: State)
    requires Wf(s) && id in s.wins && s.wins[id].kind == X11 && s.wins[id].surface.Some?
    ensures Wf(r) && Tame(s, r)
  {
    var a := if s.focusedX == Some(id) then s.(focusedX := None) else s;
    CalmIsTame(s, a);
    SetMapped(a, id, false)
  }

  /** `xwayland_surface_destroy`. */
  function DestroyX(s: State, id: Id): (r: State)
    requires Wf(s) && id in s.wins && s.wins[id].kind == X11
    ensures Wf(r) && Tame(s, r)
    ensures id !in r.wins && id !in r.xsurfaces && r.focusedX != Some(id)
    ensures forall x :: x in s.wins && x != id ==> x in r.wins && r.wins[x] == s.wins[x]
  {
    var r := s.(wins := s.wins - {id},
                xsurfaces := Without(s.xsurfaces, id),
                focusedX := if s.focusedX == Some(id) then None else s.focusedX);
    Forgotten(s, r, id);
    r
  }

  // ---------------------------------------------------------------- focus cycling

  /** The mapped window with the least serial among `ids`; the earliest one on a tie. */
  function LeastSerial(wins: Windows, ids: seq<Id>): (r: Option<Id>)
    requires forall id :: id in ids ==> id in wins
    ensures r.Some? ==> r.value in ids && wins[r.value].mapped
    ensures r.Some? ==> forall id :: id in ids && wins[id].mapped ==> wins[r.value].serial <= wins[id].serial
    ensures r.None? ==> forall id :: id in ids ==> !wins[id].mapped
  {
    if |ids| == 0 then None
    else
      var last := ids[|ids| - 1];
      var best := LeastSerial(wins, ids[..|ids| - 1]);
      assert ids == ids[..|ids| - 1] + [last];
      if wins[last].mapped && (best.None? || wins[last].serial < wins[best.value].serial) then Some(last) else best
  }

  /** The window `action_cycle_focus` selects: xdg windows are scanned before X11 ones. */
  function CyclePick(s: State): (r: Option<Id>)
    requires Wf(s)
    ensures r.Some? ==> r.value in s.wins && s.wins[r.value].mapped
    ensures r.Some? ==> forall id :: id in s.wins && s.wins[id].mapped ==> s.wins[r.value].serial <= s.wins[id].serial
    ensures r.None? ==> forall id :: id in s.wins ==> !s.wins[id].mapped
  {
    LeastSerial(s.wins, s.toplevels + s.xsurfaces)
  }

  /** `action_cycle_focus`. */
  function CycleFocus(s: State): (r: State)
    requires Wf(s)
    ensures Wf(r) && Refocused(s, r) && Tame(s, r)
  {
    var t := CyclePick(s);
    if t.Some? then Focus(s, t.value) else s
  }

  // ---------------------------------------------------------------- session lock

  /** `new_session_lock`: refused while a lock is active or the session is locked. */
  function LockRequest(s: State, lock: Lock): State {
    if s.activeLock.Some? || s.locked then s
    else s.(activeLock := Some(lock), locked := true, granted := s.granted + {lock}, seat := None)
  }

  /** `active_lock_unlock`; only granted locks have the handler attached. */
  function LockUnlock(s: State, lock: Lock): State {
    if lock in s.granted then s.(locked := false, seat := None) else s
  }

  /** `active_lock_destroy`. */
  function LockDestroy(s: State, lock: Lock): State {
    if lock in s.granted then s.(activeLock := None, granted := s.granted - {lock}) else s
  }
}
