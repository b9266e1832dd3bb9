/** Super+Tab is fair: repeated focus cycling visits every mapped window once per round. */
module Cycling {
  import opened Prelude
  import opened Compositor
  import Events

  function Mapped(s: State): set<Id> {
    set id | id in s.wins && s.wins[id].mapped
  }

  function FocusedWindow(s: State): Option<Id> {
    if s.focused.Some? then s.focused else s.focusedX
  }

  /** The seat already points at the window cycling would select, so a press changes nothing. */
  predicate Stuck(s: State)
    requires Wf(s)
  {
    CyclePick(s).Some? && s.seat == s.wins[CyclePick(s).value].surface
  }

  /** Unlocked, with a keyboard and at least two mapped windows. */
  ghost predicate Ready(s: State) {
    Wf(s) && Ordered(s.wins, s.toplevels, s.nextSerial) && !s.locked && s.keyboard && |Mapped(s)| >= 2
  }

  ghost predicate Press(a: State, b: State) {
    Wf(a) && b == CycleFocus(a)
  }

  /** Nothing but presses of the cycling key happens from one state to the next. */
  ghost predicate Presses(run: seq<State>) {
    |run| > 0 && Wf(run[0]) && forall i :: 0 <= i && i + 1 < |run| ==> Press(run[i], run[i + 1])
  }

  /** Each of the first `n` presses focuses another mapped window, all `n` mapped windows get their
      turn, and from then on the order repeats for as long as the run goes on. */
  ghost predicate Fair(run: seq<State>)
    requires |run| > 0
  {
    var all := Mapped(run[0]);
    var n := |all|;
    && |run| > n
    && (forall i :: 1 <= i <= n ==> FocusedWindow(run[i]).Some? && FocusedWindow(run[i]).value in all)
    && (forall i, j :: 1 <= i < j <= n ==> FocusedWindow(run[i]) != FocusedWindow(run[j]))
    && (forall w :: w in all ==> exists i :: 1 <= i <= n && FocusedWindow(run[i]) == Some(w))
    && (forall k :: 1 <= k && n + k < |run| ==> FocusedWindow(run[n + k]) == FocusedWindow(run[k]))
  }

  // ---------------------------------------------------------------- one press

  /** The windows `ids` have had their turns, in this order, since `s`. */
  ghost predicate TookTurns(s: State, wins: Windows, ids: seq<Id>) {
    && NoDup(ids)
    && forall i :: 0 <= i < |ids| ==>
         ids[i] in s.wins && ids[i] in wins && s.wins[ids[i]].mapped && wins[ids[i]].serial == s.nextSerial + i + 1
  }

  /** Part of a round: from `s`, the windows `ids` have been focused in this order. */
  ghost predicate Midway(s: State, t: State, ids: seq<Id>) {
    && Wf(t) && Ordered(t.wins, t.toplevels, t.nextSerial) && !t.locked && t.keyboard
    && t.wins.Keys == s.wins.Keys
    && (forall id :: id in s.wins ==> t.wins[id] == s.wins[id].(serial := t.wins[id].serial))
    && t.nextSerial == s.nextSerial + |ids|
    && TookTurns(s, t.wins, ids)
    && (forall id :: id in s.wins && id !in ids ==> t.wins[id].serial == s.wins[id].serial)
    && t.seat == if |ids| == 0 then s.seat else s.wins[ids[|ids| - 1]].surface
  }

  lemma CountDistinct(ids: seq<Id>, all: set<Id>)
    requires NoDup(ids) && forall i :: 0 <= i < |ids| ==> ids[i] in all
    ensures |ids| <= |all|
  {
    if |ids| > 0 {
      var n := |ids| - 1;
      CountDistinct(ids[..n], all - {ids[n]});
    }
  }

  lemma CountCover(ids: seq<Id>, all: set<Id>)
    requires forall x :: x in all ==> x in ids
    ensures |all| <= |ids|
  {
    if |ids| > 0 {
      var n := |ids| - 1;
      assert ids == ids[..n] + [ids[n]];
      CountCover(ids[..n], all - {ids[n]});
    } else {
      assert all == {};
    }
  }

  /** What one press does unless it is stuck. */
  lemma PressFocuses(t: State, u: State, p: Id)
    requires Press(t, u) && Ordered(t.wins, t.toplevels, t.nextSerial) && !t.locked && t.keyboard
    requires !Stuck(t) && CyclePick(t) == Some(p)
    ensures Wf(u) && Ordered(u.wins, u.toplevels, u.nextSerial) && !u.locked && u.keyboard
    ensures u.wins == Stamp(t.wins, p, t.nextSerial + 1) && u.nextSerial == t.nextSerial + 1
    ensures u.seat == t.wins[p].surface && FocusedWindow(u) == Some(p)
  {
    hide Linked, Ordered, LeastSerial, Without;
  }

  lemma MidwayPick(s: State, t: State, ids: seq<Id>) returns (p: Id)
    requires Wf(s) && Ordered(s.wins, s.toplevels, s.nextSerial) && Midway(s, t, ids)
    requires |ids| < |Mapped(s)| && (|ids| == 0 ==> !Stuck(t))
    ensures CyclePick(t) == Some(p) && p !in ids && p in s.wins && s.wins[p].mapped && !Stuck(t)
  {
    hide Linked, FocusLive, LeastSerial, Recent;
    if forall x :: x in Mapped(s) ==> x in ids {
      CountCover(ids, Mapped(s));
    }
    var w :| w in Mapped(s) && w !in ids;
    assert t.wins[w].mapped;
    p := CyclePick(t).value;
    assert t.wins[p].serial <= s.nextSerial;
    if |ids| > 0 {
      var last := ids[|ids| - 1];
      assert p != last;
    }
  }

  lemma OneMoreTurn(s: State, wins: Windows, r: Windows, ids: seq<Id>, p: Id)
    requires TookTurns(s, wins, ids) && p in s.wins && p in r && s.wins[p].mapped && p !in ids
    requires r[p].serial == s.nextSerial + |ids| + 1
    requires forall id :: id in ids ==> id in r && r[id] == wins[id]
    ensures TookTurns(s, r, ids + [p])
  {
    var more := ids + [p];
    assert forall i :: 0 <= i < |ids| ==> more[i] == ids[i] && ids[i] in ids && ids[i] != p;
    assert more[|ids|] == p;
  }

  lemma MidwayMore(s: State, t: State, u: State, ids: seq<Id>, p: Id)
    requires Wf(s) && Midway(s, t, ids) && p in s.wins && s.wins[p].mapped && p !in ids
    requires Wf(u) && Ordered(u.wins, u.toplevels, u.nextSerial) && !u.locked && u.keyboard
    requires u.wins == Stamp(t.wins, p, t.nextSerial + 1) && u.nextSerial == t.nextSerial + 1
    requires u.seat == t.wins[p].surface
    ensures Midway(s, u, ids + [p])
  {
    hide Wf, Ordered;
    assert forall id :: id in s.wins ==> u.wins[id] == if id == p then t.wins[p].(serial := t.nextSerial + 1) else t.wins[id];
    hide Stamp;
    OneMoreTurn(s, t.wins, u.wins, ids, p);
    assert forall id :: id in ids + [p] <==> id in ids || id == p;
  }

  lemma MidwayStep(s: State, t: State, u: State, ids: seq<Id>) returns (p: Id)
    requires Wf(s) && Ordered(s.wins, s.toplevels, s.nextSerial) && Midway(s, t, ids) && Press(t, u)
    requires |ids| < |Mapped(s)| && (|ids| == 0 ==> !Stuck(t))
    ensures CyclePick(t) == Some(p) && p !in ids
    ensures Midway(s, u, ids + [p]) && FocusedWindow(u) == Some(p)
  {
    hide Wf, Ordered, CyclePick, Stuck, Press, FocusedWindow;
    p := MidwayPick(s, t, ids);
    PressFocuses(t, u, p);
    MidwayMore(s, t, u, ids, p);
  }

  // ---------------------------------------------------------------- one round

  /** `k` presses into the first round. */
  lemma {:induction false} Round(run: seq<State>, k: nat) returns (ids: seq<Id>)
    requires Presses(run) && Ready(run[0]) && !Stuck(run[0]) && k <= |Mapped(run[0])| && k < |run|
    ensures |ids| == k && Midway(run[0], run[k], ids)
    ensures forall i :: 1 <= i <= k ==> FocusedWindow(run[i]) == Some(ids[i - 1])
  {
    hide Wf, Ordered, CyclePick, Stuck, Press, FocusedWindow;
    if k == 0 {
      ids := [];
    } else {
      var before := Round(run, k - 1);
      assert Press(run[k - 1], run[k - 1 + 1]);
      var p := MidwayStep(run[0], run[k - 1], run[k], before);
      ids := before + [p];
    }
  }

  /** `t` is `s` after a complete round `ids`, ready for the next one. */
  ghost predicate Turned(s: State, t: State, ids: seq<Id>) {
    && Midway(s, t, ids) && Ready(t) && !Stuck(t) && Mapped(t) == Mapped(s) && |ids| == |Mapped(s)|
    && forall w :: w in Mapped(s) <==> w in ids
  }

  /** When everything mapped has been focused, the next press is not stuck either. */
  lemma RoundTurns(s: State, t: State, ids: seq<Id>)
    requires Ready(s) && Midway(s, t, ids) && |ids| == |Mapped(s)|
    ensures Turned(s, t, ids)
  {
    hide Linked, FocusLive, Ordered, LeastSerial;
    forall w | w in Mapped(s)
      ensures w in ids
    {
      if w !in ids {
        CountDistinct(ids + [w], Mapped(s));
      }
    }
    assert Mapped(t) == Mapped(s);
    assert t.wins[ids[0]].mapped;
    var p := CyclePick(t).value;
    assert p in ids;
    assert p != ids[|ids| - 1];
  }

  /** A window whose turn in a later round is still to come has its serial from the round before. */
  lemma WaitingSerial(s: State, t: State, u: State, ids: seq<Id>, k: nat, i: nat)
    requires Turned(s, t, ids) && k <= i < |ids| && Midway(t, u, ids[..k])
    ensures ids[i] in u.wins && u.wins[ids[i]].mapped && u.wins[ids[i]].serial == s.nextSerial + i + 1
  {
    hide Wf, Ordered, Stuck, Ready;
    assert ids[i] !in ids[..k];
    assert t.wins[ids[i]].serial == s.nextSerial + i + 1;
  }

  lemma TurnToCome(s: State, t: State, u: State, ids: seq<Id>, k: nat, p: Id) returns (i: nat)
    requires Turned(s, t, ids) && k < |ids| && Midway(t, u, ids[..k])
    requires p in u.wins && u.wins[p].mapped && p !in ids[..k]
    ensures k <= i < |ids| && ids[i] == p
  {
    hide Wf, Ordered, Stuck, Ready, TookTurns;
    assert t.wins[p].mapped && p in Mapped(t);
    i :| 0 <= i < |ids| && ids[i] == p;
    assert forall j :: 0 <= j < k ==> ids[..k][j] == ids[j];
  }

  /** In a later round the next window in line is the one focused longest ago. */
  lemma NextInLine(s: State, t: State, u: State, ids: seq<Id>, k: nat, p: Id)
    requires Turned(s, t, ids) && k < |ids| && Midway(t, u, ids[..k])
    requires CyclePick(u) == Some(p) && p !in ids[..k]
    ensures p == ids[k]
  {
    assert Wf(u);
    hide Wf, LeastSerial, Midway, Turned;
    var i := TurnToCome(s, t, u, ids, k, p);
    WaitingSerial(s, t, u, ids, k, i);
    WaitingSerial(s, t, u, ids, k, k);
  }

  lemma MidwayStarts(s: State)
    requires Ready(s)
    ensures Midway(s, s, [])
  {
    hide Wf, Ordered;
  }

  lemma SameOrderStep(s: State, t: State, u: State, v: State, ids: seq<Id>, k: nat)
    requires Turned(s, t, ids) && k < |ids| && Midway(t, u, ids[..k]) && Press(u, v) && (k == 0 ==> !Stuck(u))
    ensures Midway(t, v, ids[..k + 1]) && FocusedWindow(v) == Some(ids[k])
  {
    hide Wf, Ordered, CyclePick, Stuck, Press, Midway, FocusedWindow;
    var p := MidwayStep(t, u, v, ids[..k]);
    NextInLine(s, t, u, ids, k, p);
    assert ids[..k] + [p] == ids[..k + 1];
  }

  /** The next round repeats the order of the one before it. */
  lemma {:induction false} SameOrder(s: State, run: seq<State>, ids: seq<Id>, k: nat)
    requires Presses(run) && Turned(s, run[0], ids) && k <= |ids| && k < |run|
    ensures Midway(run[0], run[k], ids[..k])
    ensures forall i :: 1 <= i <= k ==> FocusedWindow(run[i]) == Some(ids[i - 1])
  {
    hide Wf, Ordered, CyclePick, Stuck, Press, Midway, FocusedWindow;
    if k == 0 {
      MidwayStarts(run[0]);
      assert ids[..0] == [];
    } else {
      SameOrder(s, run, ids, k - 1);
      assert Press(run[k - 1], run[k - 1 + 1]);
      SameOrderStep(s, run[0], run[k - 1], run[k], ids, k - 1);
    }
  }

  // ---------------------------------------------------------------- round after round

  lemma LaterRun(run: seq<State>, n: nat)
    requires Presses(run) && n < |run| && Wf(run[n])
    ensures Presses(run[n..])
  {
    hide Press, Wf;
    var rest := run[n..];
    assert forall i :: 0 <= i < |rest| ==> rest[i] == run[n + i];
    forall i | 0 <= i && i + 1 < |rest|
      ensures Press(rest[i], rest[i + 1])
    {
      assert Press(run[n + i], run[n + i + 1]);
    }
  }

  /** From a start that is not stuck, the order repeats with period `|Mapped|`. */
  lemma {:induction false} Periodic(run: seq<State>, k: nat)
    requires Presses(run) && Ready(run[0]) && !Stuck(run[0])
    requires 1 <= k && |Mapped(run[0])| + k < |run|
    ensures FocusedWindow(run[|Mapped(run[0])| + k]) == FocusedWindow(run[k])
    decreases k
  {
    hide Wf, Ordered, CyclePick, Stuck, Press, Midway, FocusedWindow;
    var n := |Mapped(run[0])|;
    var ids := Round(run, n);
    RoundTurns(run[0], run[n], ids);
    LaterRun(run, n);
    var rest := run[n..];
    if k <= n {
      SameOrder(run[0], rest, ids, k);
      assert rest[k] == run[n + k];
    } else {
      Periodic(rest, k - n);
      assert rest[n + (k - n)] == run[n + k] && rest[k - n] == run[k];
    }
  }

  lemma {:induction false} StuckStays(run: seq<State>, k: nat)
    requires Presses(run) && Stuck(run[0]) && k < |run|
    ensures run[k] == run[0]
  {
    hide Linked, LeastSerial, Ordered;
    if k > 0 {
      StuckStays(run, k - 1);
      assert Press(run[k - 1], run[k - 1 + 1]);
    }
  }

  /** Unlocked, with a keyboard and two or more mapped windows, a long enough run of presses is fair
      exactly when the seat does not already point at the window that is next in line. */
  lemma FairUnlessStuck(run: seq<State>)
    requires Presses(run) && Ready(run[0]) && |run| > |Mapped(run[0])|
    ensures Fair(run) <==> !Stuck(run[0])
  {
    hide Wf, Ordered, CyclePick, Stuck, Press, FocusedWindow;
    if Stuck(run[0]) {
      StuckStays(run, 1);
      StuckStays(run, 2);
    } else {
      var n := |Mapped(run[0])|;
      var ids := Round(run, n);
      RoundTurns(run[0], run[n], ids);
      forall w | w in Mapped(run[0])
        ensures exists i :: 1 <= i <= n && FocusedWindow(run[i]) == Some(w)
      {
        var i :| 0 <= i < |ids| && ids[i] == w;
        assert FocusedWindow(run[i + 1]) == Some(w);
      }
      forall k | 1 <= k && n + k < |run|
        ensures FocusedWindow(run[n + k]) == FocusedWindow(run[k])
      {
        Periodic(run, k);
      }
    }
  }

  // ---------------------------------------------------------------- over runs of all handlers

  lemma AnotherOne(all: set<Id>, p: Option<Id>) returns (w: Id)
    requires |all| >= 2
    ensures w in all && p != Some(w)
  {
    w :| w in all;
    if p == Some(w) {
      var rest := all - {w};
      assert |rest| >= 1;
      w :| w in rest;
    }
  }

  lemma AttentiveNotStuck(s: State)
    requires Ready(s) && Attentive(s.wins, s.seat, s.keyboard, s.nextSerial)
    ensures !Stuck(s)
  {
    var w := AnotherOne(Mapped(s), CyclePick(s));
    assert s.wins[w].mapped;
    var p := CyclePick(s).value;
    assert s.wins[p].serial <= s.wins[w].serial <= s.nextSerial;
  }

  /** After any run whose keyboards stay and whose new windows bring their own surfaces, cycling is fair. */
  lemma FairOverRuns(gap: int, ratio: real, es: seq<Events.Event>, run: seq<State>)
    requires Events.Possible(Events.Boot(true, gap, ratio), es) && Events.AllFresh(Events.Boot(true, gap, ratio), es)
    requires Presses(run) && run[0] == Events.After(Events.Boot(true, gap, ratio), es)
    requires !run[0].locked && 2 <= |Mapped(run[0])| < |run|
    ensures Fair(run)
  {
    var boot := Events.Boot(true, gap, ratio);
    Events.BootInv(true, gap, ratio);
    Events.RunKeeps(boot, es);
    Events.RunAttentive(boot, es);
    AttentiveNotStuck(run[0]);
    FairUnlessStuck(run);
  }

  // ---------------------------------------------------------------- getting stuck

  /** The keyboard is unplugged, the window `a` is clicked, the keyboard comes back. */
  function Replug(a: Id, surface: Surface): seq<Events.Event> {
    [Events.Seat(Events.Keyboard(false)), Events.Win(Events.ClickXdg(a, surface)), Events.Seat(Events.Keyboard(true))]
  }

  lemma After3(s: State, e: Events.Event, f: Events.Event, g: Events.Event)
    requires Wf(s) && Events.Enabled(s, e)
    requires Events.Enabled(Events.Step(s, e), f) && Events.Enabled(Events.Step(Events.Step(s, e), f), g)
    ensures Events.Possible(s, [e, f, g])
    ensures Events.After(s, [e, f, g]) == Events.Step(Events.Step(Events.Step(s, e), f), g)
  {
    hide Wf, Events.Enabled, Events.Step;
    var t := Events.Step(s, e);
    assert [e, f, g][1..] == [f, g] && [f, g][1..] == [g] && [g][1..] == [];
    assert Events.Possible(t, [f, g]) by {
      assert Events.Possible(Events.Step(t, f), [g]);
    }
    assert Events.After(t, [f, g]) == Events.Step(Events.Step(t, f), g) by {
      assert Events.After(Events.Step(t, f), [g]) == Events.Step(Events.Step(t, f), g);
    }
  }

  /** What a click without a keyboard, and the keyboard's return, do: the seat keeps its old focus. */
  lemma ReplugEffect(s: State, a: Id, b: Id, surface: Surface) returns (t: State)
    requires Ready(s) && Mapped(s) == {a, b} && a != b && s.wins[a].kind == Xdg
    requires s.wins[a].surface == Some(surface) && s.seat == s.wins[b].surface
    ensures Events.Possible(s, Replug(a, surface)) && Events.After(s, Replug(a, surface)) == t
    ensures Wf(t) && Ordered(t.wins, t.toplevels, t.nextSerial) && !t.locked && t.keyboard
    ensures t.seat == s.seat && t.wins == Stamp(s.wins, a, s.nextSerial + 1)
  {
    hide Ordered, Keen, Exclusive;
    assert a in Mapped(s) && b in Mapped(s);
    var off := s.(keyboard := false);
    var on := FocusToplevel(off, a, surface);
    t := on.(keyboard := true);
    After3(s, Replug(a, surface)[0], Replug(a, surface)[1], Replug(a, surface)[2]);
  }

  lemma StaysBehind(s: State, t: State, a: Id, b: Id)
    requires Ready(s) && Mapped(s) == {a, b} && a != b && s.seat == s.wins[b].surface
    requires Wf(t) && Ordered(t.wins, t.toplevels, t.nextSerial) && !t.locked && t.keyboard
    requires t.seat == s.seat && t.wins == Stamp(s.wins, a, s.nextSerial + 1)
    ensures Ready(t) && Stuck(t)
  {
    hide Linked, Surfaced, FocusLive, LeastSerial, Recent;
    assert Mapped(t) == Mapped(s);
    assert t.wins[a].mapped && t.wins[b].mapped && t.wins[b].serial < t.wins[a].serial;
    assert CyclePick(t).value in Mapped(t);
  }

  /** Cycling can get stuck: of two windows, clicking the one without the focus while no keyboard is
      plugged in leaves the seat on the other one, which is then next in line. */
  lemma ReplugSticks(s: State, a: Id, b: Id, surface: Surface)
    requires Ready(s) && Mapped(s) == {a, b} && a != b && s.wins[a].kind == Xdg
    requires s.wins[a].surface == Some(surface) && s.seat == s.wins[b].surface
    ensures Events.Possible(s, Replug(a, surface))
    ensures var t := Events.After(s, Replug(a, surface)); Ready(t) && Stuck(t)
  {
    var t := ReplugEffect(s, a, b, surface);
    StaysBehind(s, t, a, b);
  }

  /** No output, nothing tiled, unlocked, with a keyboard: a new window is simply focused. */
  ghost predicate Plain(s: State) {
    && Wf(s) && Ordered(s.wins, s.toplevels, s.nextSerial) && |s.outputs| == 0 && !s.locked && s.keyboard
    && (forall w :: 0 <= w < COUNT ==> s.spaces[w].layout == Floating)
    && forall id :: id in s.wins ==> s.wins[id].mapped
  }

  function Opened(s: State, id: Id, surface: Surface): (r: State)
    requires Plain(s) && id !in s.wins && Unclaimed(s, surface)
  {
    NewToplevel(s, -1, id, surface)
  }

  /** A new window has its surface and nothing else yet. */
  ghost predicate Waiting(s: State, n: State, id: Id, surface: Surface) {
    && Wf(n) && Ordered(n.wins, n.toplevels, n.nextSerial) && |n.outputs| == 0 && !n.locked && n.keyboard
    && (forall w :: 0 <= w < COUNT ==> n.spaces[w].layout == Floating)
    && n.wins.Keys == s.wins.Keys + {id} && (forall x :: x in s.wins ==> n.wins[x] == s.wins[x])
    && n.wins[id].kind == Xdg && n.wins[id].surface == Some(surface) && !n.wins[id].mapped && n.seat == s.seat
    && OnScreenIfTiled(n, id)
  }

  /** A window has opened and taken the focus. */
  ghost predicate Took(s: State, t: State, id: Id, surface: Surface) {
    && Plain(t) && t.wins.Keys == s.wins.Keys + {id} && t.seat == Some(surface)
    && t.wins[id].kind == Xdg && t.wins[id].surface == Some(surface)
    && forall x :: x in s.wins && x != id ==> t.wins[x].kind == s.wins[x].kind && t.wins[x].surface == s.wins[x].surface
  }

  lemma OpenedEffect(s: State, id: Id, surface: Surface)
    requires Plain(s) && id !in s.wins && Unclaimed(s, surface)
    ensures Waiting(s, Opened(s, id, surface), id, surface)
  {
    hide Linked, Surfaced, FocusLive, Ordered, Attentive, Exclusive, Unclaimed;
  }

  /** Where nothing is tiled or shown, mapping a window only focuses it. */
  lemma MapFocuses(s: State, n: State, id: Id, surface: Surface) returns (a: State)
    requires Plain(s) && id !in s.wins && Waiting(s, n, id, surface)
    ensures Wf(a) && Ordered(a.wins, a.toplevels, a.nextSerial)
    ensures a == n.(wins := a.wins) && a.wins == n.wins[id := n.wins[id].(mapped := true)]
    ensures forall x :: x in a.wins && a.wins[x].surface == Some(surface) ==> x == id
    ensures MapToplevel(n, id, 1, 1, None) == FocusToplevel(a, id, surface)
  {
    hide Linked, FocusLive, Ordered, Attentive, Exclusive, Plain;
    a := SetMapped(n, id, true);
    assert Settle(a, id, 1, 1) == a;
  }

  lemma FocusGives(a: State, id: Id, surface: Surface)
    requires Wf(a) && id in a.wins && a.wins[id].kind == Xdg && a.wins[id].mapped && !a.locked && a.keyboard
    requires forall x :: x in a.wins && a.wins[x].surface == Some(surface) ==> x == id
    ensures var t := FocusToplevel(a, id, surface);
      && Wf(t) && Tame(a, t) && t.outputs == a.outputs && t.spaces == a.spaces && t.seat == Some(surface)
      && !t.locked && t.keyboard && t.wins.Keys == a.wins.Keys
      && forall x :: x in a.wins ==>
           t.wins[x].mapped == a.wins[x].mapped && t.wins[x].kind == a.wins[x].kind && t.wins[x].surface == a.wins[x].surface
  {
    hide Linked, FocusLive, Surfaced, Ordered, Attentive, Exclusive, Tame;
  }

  lemma MappedEffect(s: State, n: State, id: Id, surface: Surface)
    requires Plain(s) && id !in s.wins && Waiting(s, n, id, surface) && s.seat != Some(surface)
    ensures Took(s, MapToplevel(n, id, 1, 1, None), id, surface)
  {
    hide Wf, Keen, Ordered, MapToplevel, FocusToplevel;
    var a := MapFocuses(s, n, id, surface);
    FocusGives(a, id, surface);
  }

  function Opening(id: Id, surface: Surface): seq<Events.Event> {
    [Events.Win(Events.XdgNew(-1, id, surface)), Events.Win(Events.XdgMap(id, 1, 1, None))]
  }

  lemma {:induction false} RunAppend(s: State, a: seq<Events.Event>, b: seq<Events.Event>)
    requires Wf(s) && Events.Possible(s, a) && Events.Possible(Events.After(s, a), b)
    ensures Events.Possible(s, a + b) && Events.After(s, a + b) == Events.After(Events.After(s, a), b)
    decreases |a|
  {
    hide Wf, Events.Enabled, Events.Step;
    if |a| == 0 {
      assert a + b == b;
    } else {
      assert (a + b)[1..] == a[1..] + b;
      RunAppend(Events.Step(s, a[0]), a[1..], b);
    }
  }

  lemma After2(s: State, e: Events.Event, f: Events.Event)
    requires Wf(s) && Events.Enabled(s, e) && Events.Enabled(Events.Step(s, e), f)
    ensures Events.Possible(s, [e, f]) && Events.After(s, [e, f]) == Events.Step(Events.Step(s, e), f)
  {
    hide Wf, Events.Enabled, Events.Step;
    var t := Events.Step(s, e);
    assert [e, f][1..] == [f] && [f][1..] == [];
    assert Events.Possible(t, [f]);
    assert Events.After(t, [f]) == Events.Step(t, f);
  }

  lemma NewStep(s: State, id: Id, surface: Surface)
    requires Wf(s) && id !in s.wins && Unclaimed(s, surface)
    ensures var e := Events.Win(Events.XdgNew(-1, id, surface));
      Events.Enabled(s, e) && Events.Step(s, e) == NewToplevel(s, -1, id, surface)
  {
    hide Wf, Mild, Keen, NewToplevel;
  }

  lemma MapStep(s: State, id: Id)
    requires Wf(s) && id in s.wins && s.wins[id].kind == Xdg && !s.wins[id].mapped && OnScreenIfTiled(s, id)
    ensures var e := Events.Win(Events.XdgMap(id, 1, 1, None));
      Events.Enabled(s, e) && Events.Step(s, e) == MapToplevel(s, id, 1, 1, None)
  {
    hide Wf, Mild, Keen, MapToplevel;
  }

  lemma OpeningRuns(s: State, id: Id, surface: Surface)
    requires Plain(s) && id !in s.wins && Unclaimed(s, surface)
    ensures var n := Opened(s, id, surface);
      && Wf(n) && id in n.wins && n.wins[id].kind == Xdg && OnScreenIfTiled(n, id)
      && Events.Possible(s, Opening(id, surface))
      && Events.After(s, Opening(id, surface)) == MapToplevel(n, id, 1, 1, None)
  {
    OpenedEffect(s, id, surface);
    NewStep(s, id, surface);
    MapStep(Opened(s, id, surface), id);
    hide Wf, Ordered, Mild, Keen, Tame, NewToplevel, MapToplevel, Events.Enabled, Events.Step;
    After2(s, Opening(id, surface)[0], Opening(id, surface)[1]);
  }

  lemma OpeningEffect(s: State, id: Id, surface: Surface)
    requires Plain(s) && id !in s.wins && Unclaimed(s, surface) && s.seat != Some(surface)
    ensures Events.Possible(s, Opening(id, surface))
    ensures Took(s, Events.After(s, Opening(id, surface)), id, surface)
  {
    hide Ordered, Took, Mild, Keen, Opening, NewToplevel, MapToplevel;
    OpenedEffect(s, id, surface);
    OpeningRuns(s, id, surface);
    MappedEffect(s, Opened(s, id, surface), id, surface);
  }

  lemma TookPlain(s: State, t: State, id: Id, surface: Surface)
    requires Took(s, t, id, surface)
    ensures Plain(t)
  {
  }

  lemma BothMapped(t: State)
    requires Plain(t) && t.wins.Keys == {0, 1}
    ensures Mapped(t) == {0, 1} && Ready(t)
  {
    hide Wf, Ordered;
    assert t.wins.Keys == Mapped(t);
  }

  /** Two windows open, and the keyboard is unplugged while the first one is clicked. */
  function StuckRun(): seq<Events.Event> {
    Opening(0, 10) + (Opening(1, 11) + Replug(0, 10))
  }

  lemma BothTook(boot: State, one: State, two: State)
    requires Plain(boot) && boot.wins == map[] && boot.seat == None
    requires Took(boot, one, 0, 10)
    ensures Unclaimed(one, 11) && 1 !in one.wins && one.seat != Some(11)
    ensures Took(one, two, 1, 11) ==>
      Ready(two) && Mapped(two) == {0, 1} && two.wins[0].kind == Xdg && two.wins[0].surface == Some(10) &&
      two.seat == two.wins[1].surface
  {
    hide Wf, Ordered;
    if Took(one, two, 1, 11) {
      BothMapped(two);
    }
  }

  lemma BootPlain(gap: int, ratio: real)
    ensures var boot := Events.Boot(true, gap, ratio); Plain(boot) && boot.wins == map[] && boot.seat == None
  {
  }

  /** A run from the compositor's start after which cycling is stuck. */
  lemma StuckFromBoot(gap: int, ratio: real)
    ensures Events.Possible(Events.Boot(true, gap, ratio), StuckRun())
    ensures var t := Events.After(Events.Boot(true, gap, ratio), StuckRun()); Ready(t) && Stuck(t)
  {
    hide Wf, Ready, Stuck, Plain, Took, Ordered, Events.Boot, Replug, Opening, Events.Enabled, Events.Step;
    var boot := Events.Boot(true, gap, ratio);
    BootPlain(gap, ratio);
    OpeningEffect(boot, 0, 10);
    var one := Events.After(boot, Opening(0, 10));
    BothTook(boot, one, one);
    TookPlain(boot, one, 0, 10);
    OpeningEffect(one, 1, 11);
    var two := Events.After(one, Opening(1, 11));
    BothTook(boot, one, two);
    ReplugSticks(two, 0, 1, 10);
    RunAppend(one, Opening(1, 11), Replug(0, 10));
    RunAppend(boot, Opening(0, 10), Opening(1, 11) + Replug(0, 10));
  }
}
