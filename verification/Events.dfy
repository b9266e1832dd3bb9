/** Every interleaving of the compositor's handlers, and the invariants that survive them. */
module Events {
  import opened Prelude
  import opened Tiling
  import opened Compositor

  /** Outputs, key bindings and IPC commands; `under` is the output under the cursor. */
  datatype DeskEvent =
    | Plug(area: Box)
    | Unplug(out: nat)
    | AreaChanged(out: nat, area: Box)
    | Reconfigured(out: nat, area: Box)
    | PressSwitch(under: int, index: WsIx)
    | CommandSwitch(under: int, to: int)
    | PressScratchpad(under: int)
    | PressMove(to: int)
    | PressCycle
    | PressFloating(under: int)
    | PressSwapMaster
    | PressResize(dw: int, dh: int, w: int, h: int)
    | PressLayout(under: int)
    | CommandLayout(under: int, layout: Layout)
    | FocusAdjacent(out: nat)
    | Reload(gap: int, ratio: real)

  /** The pointer and the windows' own life cycle; `Reshape` stands for every handler that only moves,
      resizes, shows or hides one window. */
  datatype WindowEvent =
    | ClickXdg(id: Id, surface: Surface)
    | ClickX11(id: Id)
    | Grab(id: Id)
    | Reshape(id: Id, box: Box, shown: bool, fullscreen: bool)
    | XdgNew(under: int, id: Id, surface: Surface)
    | XdgMap(id: Id, w: int, h: int, rule: Option<Rule>)
    | XdgUnmap(id: Id)
    | XdgDestroy(id: Id)
    | X11New(under: int, id: Id)
    | X11Associate(id: Id, surface: Surface)
    | X11Dissociate(id: Id)
    | X11Map(id: Id, obox: Box, own: Box, full: Box, rule: Option<Rule>)
    | X11Unmap(id: Id)
    | X11Destroy(id: Id)

  /** Keyboards, other takers of the keyboard focus, and the session lock. */
  datatype SeatEvent =
    | SeatTaken(taker: Option<Surface>)
    | Keyboard(present: bool)
    | LockNew(lock: Lock)
    | LockDone(lock: Lock)
    | LockGone(lock: Lock)

  datatype Event = Desk(desk: DeskEvent) | Win(win: WindowEvent) | Seat(seat: SeatEvent)

  ghost predicate Live(s: State, id: Id, kind: Kind) {
    id in s.wins && s.wins[id].kind == kind
  }

  ghost predicate DeskEnabled(s: State, e: DeskEvent)
    requires Wf(s)
  {
    match e
    case Plug(_) => |s.outputs| < COUNT
    case Unplug(k) => k < |s.outputs|
    case AreaChanged(k, _) => k < |s.outputs|
    case Reconfigured(k, _) => k < |s.outputs|
    case FocusAdjacent(k) => k < |s.outputs|
    case PressFloating(k) => TogglesFloating(s) ==> 0 <= k < |s.outputs|
    case PressSwapMaster => HeadTiled(s)
    case _ => true
  }

  ghost predicate WindowEnabled(s: State, e: WindowEvent)
    requires Wf(s)
  {
    match e
    case ClickXdg(id, surface) =>
      Live(s, id, Xdg) && s.wins[id].mapped && (s.wins[id].surface == Some(surface) || Unclaimed(s, surface))
    case ClickX11(id) => Live(s, id, X11) && s.wins[id].mapped
    case Grab(id) => Live(s, id, Xdg) && OnScreenIfTiled(s, id)
    case Reshape(id, _, _, _) => id in s.wins
    case XdgNew(_, id, surface) => id !in s.wins && Unclaimed(s, surface)
    case XdgMap(id, _, _, _) => Live(s, id, Xdg) && !s.wins[id].mapped && OnScreenIfTiled(s, id)
    case XdgUnmap(id) => Live(s, id, Xdg) && s.wins[id].mapped
    case XdgDestroy(id) => Live(s, id, Xdg) && !s.wins[id].mapped
    case X11New(_, id) => id !in s.wins
    case X11Associate(id, surface) => Live(s, id, X11) && !s.wins[id].mapped && Unclaimed(s, surface)
    case X11Dissociate(id) => Live(s, id, X11) && !s.wins[id].mapped
    case X11Map(id, _, _, _, _) => Live(s, id, X11) && !s.wins[id].mapped && s.wins[id].surface.Some?
    case X11Unmap(id) => Live(s, id, X11) && s.wins[id].mapped
    case X11Destroy(id) => Live(s, id, X11)
  }

  ghost predicate SeatEnabled(s: State, e: SeatEvent) {
    match e
    case SeatTaken(t) => t.Some? ==> Unclaimed(s, t.value)
    case LockDone(lock) => lock in s.granted
    case LockGone(lock) => lock in s.granted
    case _ => true
  }

  /** What wlroots and the clients guarantee about an event when it is delivered, and, for `PressFloating`,
      `PressSwapMaster`, `Grab` and `XdgMap`, that the handler does not read through a null pointer. */
  ghost predicate Enabled(s: State, e: Event)
    requires Wf(s)
  {
    match e
    case Desk(d) => DeskEnabled(s, d)
    case Win(w) => WindowEnabled(s, w)
    case Seat(t) => SeatEnabled(s, t)
  }

  /** `kum_server_reload_config` lays out the tiled workspace of every output from the `k`-th on. */
  function ArrangeFrom(s: State, k: nat): (r: State)
    requires Wf(s) && k <= |s.outputs|
    ensures Wf(r) && Tame(s, r)
    decreases |s.outputs| - k
  {
    if k == |s.outputs| then s
    else
      var w := s.outputs[k].active;
      ArrangeFrom(if s.spaces[w].layout == Tile then Arrange(s, s.outputs[k].area, w) else s, k + 1)
  }

  function DeskStep(s: State, e: DeskEvent): (r: State)
    requires Wf(s) && DeskEnabled(s, e)
    ensures Wf(r)
  {
    match e
    case Plug(area) => Connect(s, area)
    case Unplug(k) => Disconnect(s, k)
    case AreaChanged(k, area) => SetArea(s, k, area)
    case Reconfigured(k, area) => ReplaceArea(s, k, area)
    case PressSwitch(k, index) => KeySwitch(s, k, index)
    case CommandSwitch(k, to) => Switch(s, k, to)
    case PressScratchpad(k) => Scratchpad(s, k)
    case PressMove(to) => KeyMove(s, to)
    case PressCycle => CycleFocus(s)
    case PressFloating(k) => ToggleFloating(s, k)
    case PressSwapMaster => SwapMaster(s)
    case PressResize(dw, dh, w, h) => Resize(s, dw, dh, w, h)
    case PressLayout(k) => ToggleLayout(s, k)
    case CommandLayout(k, layout) => ChooseLayout(s, k, layout)
    case FocusAdjacent(k) => FocusFirst(s, s.outputs[k].active)
    case Reload(gap, ratio) => ArrangeFrom(s.(gap := gap, ratio := ratio), 0)
  }

  function WindowStep(s: State, e: WindowEvent): (r: State)
    requires Wf(s) && WindowEnabled(s, e)
    ensures Wf(r)
  {
    match e
    case ClickXdg(id, surface) => FocusToplevel(s, id, surface)
    case ClickX11(id) => FocusX(s, id)
    case Grab(id) => BeginInteractive(s, id)
    case Reshape(id, box, shown, fullscreen) =>
      SetFullscreen(SetShown(SetSize(SetPos(s, id, box.x, box.y), id, box.w, box.h), id, shown), id, fullscreen)
    case XdgNew(k, id, surface) => NewToplevel(s, k, id, surface)
    case XdgMap(id, w, h, rule) => MapToplevel(s, id, w, h, rule)
    case XdgUnmap(id) => UnmapToplevel(s, id)
    case XdgDestroy(id) => DestroyToplevel(s, id)
    case X11New(k, id) => NewX(s, k, id)
    case X11Associate(id, surface) => Associate(s, id, Some(surface))
    case X11Dissociate(id) => Associate(s, id, None)
    case X11Map(id, obox, own, full, rule) => MapX(s, id, obox, own, full, rule)
    case X11Unmap(id) => UnmapX(s, id)
    case X11Destroy(id) => DestroyX(s, id)
  }

  function SeatStep(s: State, e: SeatEvent): (r: State)
    requires Wf(s)
    ensures Wf(r)
  {
    match e
    case SeatTaken(t) => s.(seat := t)
    case Keyboard(present) => s.(keyboard := present)
    case LockNew(lock) => LockRequest(s, lock)
    case LockDone(lock) => LockUnlock(s, lock)
    case LockGone(lock) => LockDestroy(s, lock)
  }

  function Step(s: State, e: Event): (r: State)
    requires Wf(s) && Enabled(s, e)
    ensures Wf(r)
  {
    match e
    case Desk(d) => DeskStep(s, d)
    case Win(w) => WindowStep(s, w)
    case Seat(t) => SeatStep(s, t)
  }

  // ---------------------------------------------------------------- runs

  /** Every event of the run is enabled when its turn comes. */
  ghost predicate Possible(s: State, es: seq<Event>)
    requires Wf(s)
    decreases |es|
  {
    |es| > 0 ==> Enabled(s, es[0]) && Possible(Step(s, es[0]), es[1..])
  }

  function After(s: State, es: seq<Event>): (r: State)
    requires Wf(s) && Possible(s, es)
    ensures Wf(r)
    decreases |es|
  {
    if |es| == 0 then s else After(Step(s, es[0]), es[1..])
  }

  /** The state `kum_server_init` leaves. */
  function Boot(keyboard: bool, gap: int, ratio: real): (r: State)
    ensures Wf(r)
  {
    State([], seq(COUNT, _ => Space(Floating, [], false)), map[], [], [], None, None, None, keyboard, 0,
          false, None, {}, gap, ratio)
  }

  // ---------------------------------------------------------------- plugging and unplugging

  ghost predicate AllBelow(n: nat, s: seq<nat>) {
    forall x :: 0 <= x < n ==> x in s
  }

  /** Pigeonhole: distinct naturals below `n` are all of them exactly when there are `n` of them. */
  lemma {:induction false} Pigeonhole(s: seq<nat>, n: nat)
    requires NoDup(s) && forall x :: x in s ==> x < n
    ensures |s| <= n
    ensures AllBelow(n, s) <==> |s| == n
    decreases |s|, n, 1
  {
    if |s| == 0 {
      assert n > 0 ==> 0 !in s;
    } else if n - 1 in s {
      PigeonholeStep(s, Without(s, n - 1), n);
    } else {
      assert s[0] in s;
      Pigeonhole(s, n - 1);
    }
  }

  lemma PigeonholeStep(s: seq<nat>, rest: seq<nat>, n: nat)
    requires n > 0 && n - 1 in s && |s| == |rest| + 1 && NoDup(rest)
    requires forall x :: x in rest <==> x in s && x != n - 1
    requires forall x :: x in s ==> x < n
    ensures |s| <= n
    ensures AllBelow(n, s) <==> |s| == n
    decreases |rest|, n, 0
  {
    Pigeonhole(rest, n - 1);
    assert AllBelow(n, s) <==> AllBelow(n - 1, rest);
  }

  /** A workspace is free exactly while fewer than nine outputs show different ones. */
  lemma FreeWorkspace(outputs: seq<Output>)
    requires forall i, j :: 0 <= i < j < |outputs| ==> outputs[i].active != outputs[j].active
    ensures |outputs| <= COUNT
    ensures OutputFor(outputs, NextFree(outputs)) == -1 <==> |outputs| < COUNT
  {
    var shown: seq<nat> := seq(|outputs|, i requires 0 <= i < |outputs| => outputs[i].active);
    Pigeonhole(shown, COUNT);
    var w := NextFree(outputs);
    if |outputs| == COUNT {
      assert w in shown;
      var k :| 0 <= k < |shown| && shown[k] == w;
      assert outputs[k].active == w;
    } else {
      var x: nat :| x < COUNT && x !in shown;
      assert forall i :: 0 <= i < |outputs| ==> shown[i] == outputs[i].active && shown[i] in shown;
      assert OutputFor(outputs, x) == -1;
    }
  }

  lemma PlugExclusive(outputs: seq<Output>, spaces: seq<Space>, out: Output)
    requires Exclusive(outputs, spaces)
    ensures Exclusive([out] + outputs, Enable(spaces, out.active, true)) <==> OutputFor(outputs, out.active) == -1
  {
    hide OutputFor;
    var r := [out] + outputs;
    assert forall i :: 1 <= i < |r| ==> r[i] == outputs[i - 1];
    if OutputFor(outputs, out.active) >= 0 {
      assert r[OutputFor(outputs, out.active) + 1].active == r[0].active;
    } else {
      forall v | 0 <= v < COUNT
        ensures OutputFor(r, v) >= 0 <==> v == out.active || OutputFor(outputs, v) >= 0
      {
        assert r[0].active == out.active;
        if OutputFor(outputs, v) >= 0 {
          assert r[OutputFor(outputs, v) + 1].active == v;
        }
      }
    }
  }

  /** A new output keeps displays exclusive exactly while fewer than nine outputs are connected. */
  lemma ConnectExclusive(s: State, area: Box)
    requires Wf(s) && Exclusive(s.outputs, s.spaces)
    ensures var r := Connect(s, area); Exclusive(r.outputs, r.spaces) <==> |s.outputs| < COUNT
  {
    FreeWorkspace(s.outputs);
    PlugExclusive(s.outputs, s.spaces, Output(area, NextFree(s.outputs), 0));
  }

  lemma RemainingExclusive(outputs: seq<Output>, spaces: seq<Space>, k: nat, r: seq<Space>)
    requires Exclusive(outputs, spaces) && k < |outputs| && |r| == COUNT
    requires var rest := outputs[..k] + outputs[k + 1..];
      forall w :: 0 <= w < COUNT ==>
        (r[w].enabled <==>
           if w == outputs[k].active then |rest| > 0
           else spaces[w].enabled && (|rest| > 0 ==> w != rest[0].active))
    ensures Exclusive(Remaining(outputs, k), r)
  {
    hide OutputFor;
    var gone := outputs[k].active;
    var rest := outputs[..k] + outputs[k + 1..];
    var left := Remaining(outputs, k);
    assert forall i :: 0 <= i < |rest| ==> rest[i] == outputs[if i < k then i else i + 1];
    assert forall i :: 0 <= i < |left| ==> left[i].active == if i == 0 then gone else rest[i].active;
    forall w | 0 <= w < COUNT
      ensures r[w].enabled <==> OutputFor(left, w) >= 0
    {
      if |rest| > 0 {
        assert left[0].active == gone;
      }
      if OutputFor(outputs, w) >= 0 && w != gone {
        var i := OutputFor(outputs, w);
        assert left[if i < k then i else i - 1] == if i == 0 || (i == 1 && k == 0) then left[0] else outputs[i];
      }
    }
  }

  /** Unplugging an output hands its workspace over and keeps displays exclusive. */
  lemma DisconnectExclusive(s: State, k: nat)
    requires Wf(s) && k < |s.outputs| && Exclusive(s.outputs, s.spaces)
    ensures var r := Disconnect(s, k); Exclusive(r.outputs, r.spaces) && r.outputs == Remaining(s.outputs, k)
  {
    hide Linked, Surfaced, FocusLive, OutputFor, Exclusive;
    var r := Disconnect(s, k);
    RemainingExclusive(s.outputs, s.spaces, k, r.spaces);
  }

  // ---------------------------------------------------------------- invariants over runs

  /** The granted locks whose events are still handled: the active one, if any. */
  ghost predicate LockOk(s: State) {
    s.granted == if s.activeLock.Some? then {s.activeLock.value} else {}
  }

  ghost predicate Inv(s: State) {
    && Wf(s) && Exclusive(s.outputs, s.spaces) && Ordered(s.wins, s.toplevels, s.nextSerial) && LockOk(s)
  }

  ghost predicate LegalParameters(gap: int, ratio: real) {
    gap >= 0 && 0.0 <= ratio <= 1.0
  }

  ghost predicate Legal(s: State) {
    LegalParameters(s.gap, s.ratio)
  }

  lemma DeskKeeps(s: State, e: DeskEvent)
    requires Wf(s) && DeskEnabled(s, e)
    ensures !e.Reload? ==> Mild(s, DeskStep(s, e))
    ensures Keen(s, DeskStep(s, e))
    ensures Inv(s) ==> Inv(DeskStep(s, e))
    ensures Legal(s) && (e.Reload? ==> LegalParameters(e.gap, e.ratio)) ==> Legal(DeskStep(s, e))
  {
    hide Wf, Ordered, Attentive, Exclusive;
    if Inv(s) {
      match e {
        case Plug(area) => ConnectExclusive(s, area);
        case Unplug(k) => DisconnectExclusive(s, k);
        case _ =>
      }
    }
  }

  /** A new window does not arrive on a surface that has the seat's focus already. */
  ghost predicate OwnSurface(s: State, e: Event) {
    && (e.Win? && e.win.XdgNew? ==> s.seat != Some(e.win.surface))
    && (e.Win? && e.win.X11Associate? ==> s.seat != Some(e.win.surface))
  }

  /** The same, and keyboards stay. */
  ghost predicate Fresh(s: State, e: Event) {
    OwnSurface(s, e) && (e.Seat? && e.seat.Keyboard? ==> e.seat.present)
  }

  lemma WindowKeeps(s: State, e: WindowEvent)
    requires Wf(s) && WindowEnabled(s, e)
    ensures Mild(s, WindowStep(s, e))
    ensures OwnSurface(s, Win(e)) ==> Keen(s, WindowStep(s, e))
    ensures Inv(s) ==> Inv(WindowStep(s, e))
  {
    hide Wf, Ordered, Attentive, Exclusive;
  }

  lemma SeatKeeps(s: State, e: SeatEvent)
    requires Wf(s) && SeatEnabled(s, e)
    ensures Fresh(s, Seat(e)) ==> Keen(s, SeatStep(s, e))
    ensures Barred(s.wins, s.seat, s.locked) ==>
      Barred(SeatStep(s, e).wins, SeatStep(s, e).seat, SeatStep(s, e).locked)
    ensures Inv(s) ==> Inv(SeatStep(s, e))
  {
    hide Linked, Surfaced, FocusLive, Ordered, Exclusive;
  }

  /** The central invariant survives every single event. */
  lemma StepKeeps(s: State, e: Event)
    requires Inv(s) && Enabled(s, e)
    ensures Inv(Step(s, e))
  {
    match e {
      case Desk(d) => DeskKeeps(s, d);
      case Win(w) => WindowKeeps(s, w);
      case Seat(t) => SeatKeeps(s, t);
    }
  }

  lemma BootInv(keyboard: bool, gap: int, ratio: real)
    ensures Inv(Boot(keyboard, gap, ratio))
  {
  }

  /** And therefore every run: no two outputs share a workspace, exactly the shown workspaces are
      enabled, every window is linked once and where its own field says, and focus is on a live mapped
      window or nowhere. */
  lemma {:induction false} RunKeeps(s: State, es: seq<Event>)
    requires Inv(s) && Possible(s, es)
    ensures Inv(After(s, es))
    decreases |es|
  {
    if |es| > 0 {
      StepKeeps(s, es[0]);
      RunKeeps(Step(s, es[0]), es[1..]);
    }
  }

  lemma StepKeen(s: State, e: Event)
    requires Wf(s) && Enabled(s, e) && Fresh(s, e)
    ensures Keen(s, Step(s, e))
  {
    match e {
      case Desk(d) => DeskKeeps(s, d);
      case Win(w) => WindowKeeps(s, w);
      case Seat(t) => SeatKeeps(s, t);
    }
  }

  ghost predicate AllFresh(s: State, es: seq<Event>)
    requires Wf(s) && Possible(s, es)
    decreases |es|
  {
    |es| > 0 ==> Fresh(s, es[0]) && AllFresh(Step(s, es[0]), es[1..])
  }

  /** With a keyboard throughout, a window that has the seat's focus is always the one focused last. */
  lemma {:induction false} RunAttentive(s: State, es: seq<Event>)
    requires Wf(s) && Possible(s, es) && AllFresh(s, es)
    requires Attentive(s.wins, s.seat, s.keyboard, s.nextSerial)
    ensures var r := After(s, es); Attentive(r.wins, r.seat, r.keyboard, r.nextSerial)
    decreases |es|
  {
    if |es| > 0 {
      StepKeen(s, es[0]);
      RunAttentive(Step(s, es[0]), es[1..]);
    }
  }

  // ---------------------------------------------------------------- tiling parameters over runs

  ghost predicate LegalReloads(es: seq<Event>) {
    forall e :: e in es && e.Desk? && e.desk.Reload? ==> LegalParameters(e.desk.gap, e.desk.ratio)
  }

  lemma StepLegal(s: State, e: Event)
    requires Wf(s) && Enabled(s, e) && Legal(s)
    requires e.Desk? && e.desk.Reload? ==> LegalParameters(e.desk.gap, e.desk.ratio)
    ensures Legal(Step(s, e))
  {
    hide Wf, Ordered, Attentive, Exclusive, Keen;
    match e {
      case Desk(d) => DeskKeeps(s, d);
      case Win(w) => WindowKeeps(s, w);
      case Seat(t) =>
    }
  }

  /** Whatever mixture of events a run is made of, the tiling parameters stay legal as long as the
      configuration files it reloads are. */
  lemma {:induction false} RunLegal(s: State, es: seq<Event>)
    requires Wf(s) && Possible(s, es) && Legal(s) && LegalReloads(es)
    ensures Legal(After(s, es))
    decreases |es|
  {
    if |es| > 0 {
      assert es[0] in es && forall e :: e in es[1..] ==> e in es;
      StepLegal(s, es[0]);
      RunLegal(Step(s, es[0]), es[1..]);
    }
  }

  // ---------------------------------------------------------------- session lock over runs

  ghost predicate Granted(s: State, e: Event) {
    e.Seat? && e.seat.LockNew? && !s.locked && s.activeLock.None?
  }

  /** Only the granted lock's own unlock event unlocks, and only a request made while nothing is locked
      and no lock is active is granted. */
  lemma LockTransitions(s: State, e: Event)
    requires Inv(s) && Enabled(s, e)
    ensures var r := Step(s, e);
      && (s.locked && !r.locked <==> s.locked && e.Seat? && e.seat.LockDone? && s.activeLock == Some(e.seat.lock))
      && (!s.locked && r.locked <==> Granted(s, e))
      && (forall l :: l in r.granted && l !in s.granted ==> Granted(s, e) && e.seat.lock == l)
      && |r.granted| <= 1
  {
    hide Wf, Ordered, Attentive, Exclusive, Keen;
    StepKeeps(s, e);
    match e {
      case Desk(d) => DeskKeeps(s, d);
      case Win(w) => WindowKeeps(s, w);
      case Seat(t) =>
    }
  }

  /** A focus pointer that may only have been dropped. */
  ghost predicate FocusFades(s: State, r: State) {
    (r.focused == s.focused || r.focused.None?) && (r.focusedX == s.focusedX || r.focusedX.None?)
  }

  lemma LockedStep(s: State, e: Event)
    requires Inv(s) && Enabled(s, e) && s.locked && (e.Seat? && e.seat.LockDone? ==> e.seat.lock !in s.granted)
    ensures var r := Step(s, e); r.locked && r.granted <= s.granted && FocusFades(s, r)
  {
    hide Wf, Ordered, Attentive, Exclusive, Keen;
    match e {
      case Desk(d) => DeskKeeps(s, d);
      case Win(w) => WindowKeeps(s, w);
      case Seat(t) =>
    }
  }

  /** Until the lock that holds the session unlocks it, the session stays locked, no other lock is
      granted, and the focus is at most dropped, never moved. */
  lemma {:induction false} StaysLocked(s: State, es: seq<Event>)
    requires Inv(s) && Possible(s, es) && s.locked
    requires forall l :: l in s.granted ==> Seat(LockDone(l)) !in es
    ensures After(s, es).locked && After(s, es).granted <= s.granted && FocusFades(s, After(s, es))
    decreases |es|
  {
    if |es| > 0 {
      assert es[0] in es;
      LockedStep(s, es[0]);
      StepKeeps(s, es[0]);
      StaysLocked(Step(s, es[0]), es[1..]);
    }
  }

  /** If the lock dies without unlocking, every later state is locked. */
  lemma OrphanedForever(s: State, es: seq<Event>)
    requires Inv(s) && Possible(s, es) && s.locked && s.activeLock.None?
    ensures After(s, es).locked && After(s, es).granted == {}
  {
    StaysLocked(s, es);
  }

  lemma StepBarred(s: State, e: Event)
    requires Wf(s) && Enabled(s, e) && OwnSurface(s, e) && Barred(s.wins, s.seat, s.locked)
    ensures var r := Step(s, e); Barred(r.wins, r.seat, r.locked)
  {
    hide Wf, Ordered, Attentive, Exclusive, Barred, Mild;
    match e {
      case Desk(d) => DeskKeeps(s, d);
      case Win(w) => WindowKeeps(s, w);
      case Seat(t) => SeatKeeps(s, t);
    }
  }

  /** While the session is locked, a new window on the surface that has the seat's focus is the one way a
      window gets it. */
  lemma BarredExactly(s: State, e: Event)
    requires Wf(s) && Enabled(s, e) && s.locked && Barred(s.wins, s.seat, s.locked)
    ensures var r := Step(s, e); Barred(r.wins, r.seat, r.locked) <==> OwnSurface(s, e)
  {
    if OwnSurface(s, e) {
      StepBarred(s, e);
    } else {
      hide Wf, Mild, Keen;
      assert e.win.id in Step(s, e).wins && Step(s, e).wins[e.win.id].surface == s.seat;
    }
  }

  ghost predicate AllOwn(s: State, es: seq<Event>)
    requires Wf(s) && Possible(s, es)
    decreases |es|
  {
    |es| > 0 ==> OwnSurface(s, es[0]) && AllOwn(Step(s, es[0]), es[1..])
  }

  /** Over every run whose new windows bring their own surfaces, no window ever has the seat's focus while
      the session is locked, whatever happens to keyboards, outputs and locks. */
  lemma {:induction false} RunBarred(s: State, es: seq<Event>)
    requires Wf(s) && Possible(s, es) && AllOwn(s, es) && Barred(s.wins, s.seat, s.locked)
    ensures var r := After(s, es); Barred(r.wins, r.seat, r.locked)
    decreases |es|
  {
    if |es| > 0 {
      StepBarred(s, es[0]);
      RunBarred(Step(s, es[0]), es[1..]);
    }
  }

  /** Some request of the run was granted and its lock does not unlock in the rest of the run. */
  ghost predicate HeldToTheEnd(s: State, es: seq<Event>)
    requires Wf(s) && Possible(s, es)
    decreases |es|
  {
    |es| > 0 &&
    ((Granted(s, es[0]) && Seat(LockDone(es[0].seat.lock)) !in es[1..]) || HeldToTheEnd(Step(s, es[0]), es[1..]))
  }

  lemma {:induction false} OrphanNeverUnlocks(s: State, es: seq<Event>)
    requires Wf(s) && Possible(s, es) && s.locked && s.granted == {}
    ensures forall l :: Seat(LockDone(l)) !in es
    decreases |es|
  {
    if |es| > 0 {
      var e := es[0];
      assert es == [e] + es[1..];
      assert Step(s, e).locked && Step(s, e).granted == {} by {
        hide Wf, Ordered, Attentive, Exclusive, Keen;
        match e {
          case Desk(d) => DeskKeeps(s, d);
          case Win(w) => WindowKeeps(s, w);
          case Seat(t) =>
        }
      }
      OrphanNeverUnlocks(Step(s, e), es[1..]);
    }
  }

  /** A lock that is neither released nor dropped stays the active one. */
  lemma LockSurvives(s: State, e: Event)
    requires Inv(s) && Enabled(s, e) && s.locked && Step(s, e).locked && s.activeLock.Some?
    requires e != Seat(LockGone(s.activeLock.value))
    ensures Step(s, e).activeLock == s.activeLock
  {
    hide Wf, Ordered, Attentive, Exclusive, Keen;
    match e {
      case Desk(d) => DeskKeeps(s, d);
      case Win(w) => WindowKeeps(s, w);
      case Seat(t) =>
    }
  }

  /** The hypothesis of `LockedExactly` after one step: unlocked, or the unlock event is still to come. */
  lemma LockStillDue(s: State, e: Event, es: seq<Event>)
    requires Inv(s) && |es| > 0 && e == es[0] && Possible(s, es)
    requires !s.locked || (s.activeLock.Some? && Seat(LockDone(s.activeLock.value)) in es)
    requires !(Granted(s, e) && Seat(LockDone(e.seat.lock)) !in es[1..])
    ensures var r := Step(s, e); !r.locked || (r.activeLock.Some? && Seat(LockDone(r.activeLock.value)) in es[1..])
  {
    hide Wf, Ordered, Attentive, Exclusive, Keen;
    assert es == [es[0]] + es[1..];
    LockTransitions(s, e);
    if s.locked && Step(s, e).locked {
      var done := Seat(LockDone(s.activeLock.value));
      assert done in es[1..];
      if e == Seat(LockGone(s.activeLock.value)) {
        OrphanNeverUnlocks(Step(s, e), es[1..]);
        assert false;
      }
      LockSurvives(s, e);
    }
  }

  /** A run that starts unlocked ends locked exactly when a granted lock never unlocked. */
  lemma {:induction false} LockedExactly(s: State, es: seq<Event>)
    requires Inv(s) && Possible(s, es)
    requires !s.locked || (s.activeLock.Some? && Seat(LockDone(s.activeLock.value)) in es)
    ensures After(s, es).locked <==> HeldToTheEnd(s, es)
    decreases |es|
  {
    if |es| > 0 {
      var e := es[0];
      var r := Step(s, e);
      StepKeeps(s, e);
      LockTransitions(s, e);
      if Granted(s, e) && Seat(LockDone(e.seat.lock)) !in es[1..] {
        StaysLocked(r, es[1..]);
      } else {
        LockStillDue(s, e, es);
        LockedExactly(r, es[1..]);
      }
    }
  }
}
