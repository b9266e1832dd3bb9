/** kumnotify's eight bubbles: showing, evicting, stacking, clicking and expiring. */
module Notify {
  import opened Prelude

  const MAX: nat := 8
  const HEIGHT: nat := 72
  const GAP: nat := 8
  const DURATION: nat := 5000
  const INT_MAX: int := 0x7FFF_FFFF
  const INT64_MAX: int := 0x7FFF_FFFF_FFFF_FFFF

  /** A slot: `top` is the margin last set on its layer surface. */
  datatype Notif = Notif(active: bool, expire: int, id: nat, surface: nat, top: int)

  type Slots = seq<Notif>

  // ---------------------------------------------------------------- stacking

  /** Active slots from `i` on. */
  function ActiveFrom(s: Slots, i: nat): nat
    requires i <= |s|
    decreases |s| - i
  {
    if i == |s| then 0 else (if s[i].active then 1 else 0) + ActiveFrom(s, i + 1)
  }

  function TopOf(s: Slots, i: nat): int
    requires i < |s|
  {
    GAP + ActiveFrom(s, i + 1) * (HEIGHT + GAP)
  }

  /** `restack`: every active bubble goes below those of the higher slots. */
  function Restacked(s: Slots): (r: Slots)
    ensures |r| == |s|
    ensures forall i :: 0 <= i < |s| ==> r[i] == if s[i].active then s[i].(top := TopOf(s, i)) else s[i]
  {
    seq(|s|, i requires 0 <= i < |s| => if s[i].active then s[i].(top := TopOf(s, i)) else s[i])
  }

  /** No active slot strictly between two others. */
  predicate Adjacent(s: Slots, i: nat, j: nat) {
    i < j < |s| && s[i].active && s[j].active && forall k :: i < k < j ==> !s[k].active
  }

  /** The bubbles on screen: the highest active slot is one gap below the edge, and from each one to the
      next there is exactly one gap. */
  ghost predicate Stacked(s: Slots) {
    && (forall i :: 0 <= i < |s| && s[i].active && (forall k :: i < k < |s| ==> !s[k].active) ==> s[i].top == GAP)
    && (forall i, j :: 0 <= i < j < |s| && Adjacent(s, i, j) ==> s[i].top == s[j].top + HEIGHT + GAP)
  }

  lemma {:induction false} NoneActive(s: Slots, i: nat, j: nat)
    requires i <= j <= |s| && forall k :: i <= k < j ==> !s[k].active
    ensures ActiveFrom(s, i) == ActiveFrom(s, j)
    decreases j - i
  {
    if i < j {
      NoneActive(s, i + 1, j);
    }
  }

  lemma {:induction false} SameActive(s: Slots, r: Slots, i: nat)
    requires |s| == |r| && i <= |s| && forall k :: i <= k < |s| ==> s[k].active == r[k].active
    ensures ActiveFrom(s, i) == ActiveFrom(r, i)
    decreases |s| - i
  {
    if i < |s| {
      SameActive(s, r, i + 1);
    }
  }

  /** Restacking stacks. */
  lemma RestackedIsStacked(s: Slots)
    ensures Stacked(Restacked(s))
  {
    var r := Restacked(s);
    forall i | 0 <= i < |r| && r[i].active && forall k :: i < k < |r| ==> !r[k].active
      ensures r[i].top == GAP
    {
      assert forall k :: i < k < |s| ==> !s[k].active by {
        assert forall k :: i < k < |s| ==> r[k].active == s[k].active;
      }
      NoneActive(s, i + 1, |s|);
    }
    forall i, j | 0 <= i < j < |r| && Adjacent(r, i, j)
      ensures r[i].top == r[j].top + HEIGHT + GAP
    {
      assert forall k :: i < k < j ==> !s[k].active by {
        assert forall k :: i < k < j ==> r[k].active == s[k].active;
      }
      NoneActive(s, i + 1, j);
      assert ActiveFrom(s, j) == 1 + ActiveFrom(s, j + 1);
    }
  }

  /** Any two stacked bubbles are disjoint, with at least a gap between them, the lower slot below. */
  lemma {:induction false} StackedApart(s: Slots, i: nat, j: nat)
    requires Stacked(s) && i < j < |s| && s[i].active && s[j].active
    ensures s[i].top >= s[j].top + HEIGHT + GAP
    decreases j - i
  {
    if !Adjacent(s, i, j) {
      var k :| i < k < j && s[k].active;
      StackedApart(s, i, k);
      StackedApart(s, k, j);
    }
  }

  // ---------------------------------------------------------------- the handlers

  /** `dismiss`. */
  function Dismissed(s: Slots, k: nat): (r: Slots)
    requires k < |s|
    ensures |r| == |s|
  {
    if s[k].active then Restacked(s[k := s[k].(active := false)]) else s
  }

  predicate Full(s: Slots) {
    forall i :: 0 <= i < |s| ==> s[i].active
  }

  /** The slot a new notification takes: the first free one, else the first of those expiring first. */
  predicate Takes(s: Slots, k: nat) {
    k < |s| &&
    if Full(s) then
      (forall i :: 0 <= i < |s| ==> s[k].expire <= s[i].expire) && (forall i :: 0 <= i < k ==> s[k].expire < s[i].expire)
    else !s[k].active && forall i :: 0 <= i < k ==> s[i].active
  }

  function Expiry(now: int, timeout: int): int {
    now + if timeout > 0 then timeout else DURATION
  }

  /** `show` in slot `k`. */
  function Placed(s: Slots, k: nat, n: Notif): (r: Slots)
    requires k < |s|
    ensures |r| == |s|
  {
    Restacked((if Full(s) then Dismissed(s, k) else s)[k := n])
  }

  /** The expiry pass from slot `i` on. */
  function Swept(s: Slots, now: int, i: nat): (r: Slots)
    requires i <= |s|
    ensures |r| == |s|
    decreases |s| - i
  {
    if i == |s| then s
    else Swept(if s[i].active && now >= s[i].expire then Dismissed(s, i) else s, now, i + 1)
  }

  /** Everything but the position of a bubble. */
  predicate SameBubble(a: Notif, b: Notif) {
    a == b.(top := a.top)
  }

  /** Only the bubble in slot `k` may differ. */
  predicate Spares(s: Slots, r: Slots, k: nat) {
    |s| == |r| && forall i :: 0 <= i < |s| && i != k ==> SameBubble(s[i], r[i])
  }

  /** Showing a notification loses no other one unless all slots are taken, and then exactly one that
      expires first. */
  lemma ShowEffect(s: Slots, k: nat, n: Notif)
    requires Takes(s, k) && n.active
    ensures var r := Placed(s, k, n);
      && Stacked(r) && Spares(s, r, k) && SameBubble(r[k], n)
      && (s[k].active <==> Full(s))
      && (s[k].active ==> forall i :: 0 <= i < |s| ==> s[k].expire <= s[i].expire)
  {
    var a := if Full(s) then Dismissed(s, k) else s;
    RestackedIsStacked(a[k := n]);
  }

  lemma DismissEffect(s: Slots, k: nat)
    requires k < |s| && Stacked(s)
    ensures var r := Dismissed(s, k); Stacked(r) && Spares(s, r, k) && !r[k].active
  {
    if s[k].active {
      RestackedIsStacked(s[k := s[k].(active := false)]);
    }
  }

  /** The expiry pass removes exactly the expired bubbles. */
  lemma {:induction false} SweepEffect(s: Slots, now: int, i: nat)
    requires i <= |s| && Stacked(s)
    ensures var r := Swept(s, now, i);
      && Stacked(r)
      && (forall j :: 0 <= j < i ==> SameBubble(s[j], r[j]))
      && (forall j :: i <= j < |s| ==>
            if s[j].active && now >= s[j].expire then !r[j].active else SameBubble(s[j], r[j]))
    decreases |s| - i
  {
    hide Stacked, Dismissed;
    if i < |s| {
      DismissEffect(s, i);
      SweepEffect(if s[i].active && now >= s[i].expire then Dismissed(s, i) else s, now, i + 1);
    }
  }

  // ---------------------------------------------------------------- runs

  /** The slots, the last identifier given, the surface under the pointer, and the latest clock reading. */
  datatype Tray = Tray(slots: Slots, lastId: nat, pointer: Option<nat>, clock: int)

  datatype Event =
    | Notice(now: int, timeout: int, surface: nat)
    | Closed(slot: nat)
    | Pointer(over: Option<nat>)
    | Press
    | Pass(now: int)

  /** No two bubbles share a surface. */
  ghost predicate OwnSurfaces(s: Slots) {
    forall i, j :: 0 <= i < j < |s| && s[i].active && s[j].active ==> s[i].surface != s[j].surface
  }

  /** No bubble stays longer than a 32-bit timeout can say, or to the end of time. */
  ghost predicate InTime(s: Slots, clock: int) {
    forall i :: 0 <= i < |s| && s[i].active ==> s[i].expire <= clock + INT_MAX && s[i].expire < INT64_MAX
  }

  ghost predicate Inv(t: Tray) {
    |t.slots| == MAX && Stacked(t.slots) && OwnSurfaces(t.slots) && InTime(t.slots, t.clock)
  }

  /** The clock never runs backwards, timeouts are 32-bit, and a new surface is not one still in use. */
  ghost predicate Enabled(t: Tray, e: Event) {
    match e
    case Notice(now, timeout, surface) =>
      t.clock <= now < INT64_MAX - INT_MAX && timeout <= INT_MAX &&
      forall i :: 0 <= i < |t.slots| && t.slots[i].active ==> t.slots[i].surface != surface
    case Closed(k) => k < |t.slots|
    case Pass(now) => t.clock <= now
    case _ => true
  }

  function FirstFree(s: Slots, from: nat): (k: nat)
    requires from <= |s| && !Full(s) && forall i :: 0 <= i < from ==> s[i].active
    ensures k < |s| && !s[k].active && forall i :: 0 <= i < k ==> s[i].active
    decreases |s| - from
  {
    if !s[from].active then from else FirstFree(s, from + 1)
  }

  function Soonest(s: Slots, n: nat): (k: nat)
    requires 0 < n <= |s|
    ensures k < n && forall i :: 0 <= i < n ==> s[k].expire <= s[i].expire
    ensures forall i :: 0 <= i < k ==> s[k].expire < s[i].expire
  {
    if n == 1 then 0
    else
      var k := Soonest(s, n - 1);
      if s[n - 1].expire < s[k].expire then n - 1 else k
  }

  /** The first free slot, or the first of those expiring first. */
  function Slot(s: Slots): (k: nat)
    requires |s| > 0
    ensures Takes(s, k)
  {
    if Full(s) then Soonest(s, |s|) else FirstFree(s, 0)
  }

  /** The slot whose bubble is on this surface, if any. */
  function OnSurface(s: Slots, surface: nat, from: nat): (k: int)
    requires from <= |s|
    ensures k == -1 || (from <= k < |s| && s[k].active && s[k].surface == surface)
    ensures k == -1 ==> forall i :: from <= i < |s| ==> !(s[i].active && s[i].surface == surface)
    decreases |s| - from
  {
    if from == |s| then -1
    else if s[from].active && s[from].surface == surface then from
    else OnSurface(s, surface, from + 1)
  }

  function Next(t: Tray, e: Event): (r: Tray)
    requires |t.slots| == MAX && (e.Closed? ==> e.slot < MAX)
    ensures |r.slots| == MAX
  {
    match e
    case Notice(now, timeout, surface) =>
      var id := (t.lastId + 1) % 0x1_0000_0000;
      t.(slots := Placed(t.slots, Slot(t.slots), Notif(true, Expiry(now, timeout), id, surface, 0)),
         lastId := id, clock := now)
    case Closed(k) => t.(slots := Dismissed(t.slots, k))
    case Pointer(over) => t.(pointer := over)
    case Press =>
      if t.pointer.None? then t
      else
        var k := OnSurface(t.slots, t.pointer.value, 0);
        if k == -1 then t else t.(slots := Dismissed(t.slots, k), pointer := None)
    case Pass(now) => t.(slots := Swept(t.slots, now, 0), clock := now)
  }

  ghost predicate Possible(t: Tray, es: seq<Event>)
    requires |t.slots| == MAX
    decreases |es|
  {
    |es| > 0 ==> Enabled(t, es[0]) && Possible(Next(t, es[0]), es[1..])
  }

  function After(t: Tray, es: seq<Event>): (r: Tray)
    requires |t.slots| == MAX && Possible(t, es)
    ensures |r.slots| == MAX
    decreases |es|
  {
    if |es| == 0 then t else After(Next(t, es[0]), es[1..])
  }

  /** Changing nothing but positions, or putting bubbles away, keeps surfaces and times in order. */
  lemma Thinned(s: Slots, r: Slots, clock: int, later: int)
    requires |s| == |r| && OwnSurfaces(s) && InTime(s, clock) && clock <= later
    requires forall i :: 0 <= i < |s| && r[i].active ==> SameBubble(s[i], r[i])
    ensures OwnSurfaces(r) && InTime(r, later)
  {
    forall i, j | 0 <= i < j < |r| && r[i].active && r[j].active
      ensures r[i].surface != r[j].surface
    {
      assert SameBubble(s[i], r[i]) && SameBubble(s[j], r[j]);
    }
  }

  lemma NoticeKeeps(s: Slots, r: Slots, k: nat, n: Notif, clock: int, later: int)
    requires k < |s| && OwnSurfaces(s) && InTime(s, clock) && clock <= later
    requires n.expire <= later + INT_MAX && n.expire < INT64_MAX
    requires Spares(s, r, k) && SameBubble(r[k], n)
    requires forall i :: 0 <= i < |s| && s[i].active ==> s[i].surface != n.surface
    ensures OwnSurfaces(r) && InTime(r, later)
  {
    forall i, j | 0 <= i < j < |r| && r[i].active && r[j].active
      ensures r[i].surface != r[j].surface
    {
      assert i != k ==> SameBubble(s[i], r[i]);
      assert j != k ==> SameBubble(s[j], r[j]);
    }
  }

  lemma DismissKeeps(s: Slots, k: nat, clock: int)
    requires k < |s| && Stacked(s) && OwnSurfaces(s) && InTime(s, clock)
    ensures var r := Dismissed(s, k); Stacked(r) && OwnSurfaces(r) && InTime(r, clock)
  {
    hide Stacked, OwnSurfaces, InTime, Dismissed;
    DismissEffect(s, k);
    Thinned(s, Dismissed(s, k), clock, clock);
  }

  lemma TakesInRange(s: Slots, k: nat)
    requires Takes(s, k)
    ensures k < |s|
  {
  }

  lemma ShowKeeps(s: Slots, n: Notif, clock: int, later: int)
    requires |s| > 0 && OwnSurfaces(s) && InTime(s, clock) && clock <= later
    requires n.active && n.expire <= later + INT_MAX && n.expire < INT64_MAX
    requires forall i :: 0 <= i < |s| && s[i].active ==> s[i].surface != n.surface
    ensures var r := Placed(s, Slot(s), n); Stacked(r) && OwnSurfaces(r) && InTime(r, later)
  {
    hide Stacked, OwnSurfaces, InTime, Placed, Slot, Takes;
    var k := Slot(s);
    assert Takes(s, k);
    ShowEffect(s, k, n);
    assert k < |s| by { TakesInRange(s, k); }
    NoticeKeeps(s, Placed(s, k, n), k, n, clock, later);
  }

  /** Every event keeps at most eight bubbles, exactly stacked, each on a surface of its own. */
  lemma NextKeeps(t: Tray, e: Event)
    requires Inv(t) && Enabled(t, e)
    ensures Inv(Next(t, e))
  {
    hide Stacked, OwnSurfaces, InTime, Placed, Dismissed, Swept, Slot;
    match e {
      case Notice(now, timeout, surface) =>
        ShowKeeps(t.slots, Notif(true, Expiry(now, timeout), (t.lastId + 1) % 0x1_0000_0000, surface, 0), t.clock, now);
      case Closed(k) => DismissKeeps(t.slots, k, t.clock);
      case Press =>
        if t.pointer.Some? && OnSurface(t.slots, t.pointer.value, 0) >= 0 {
          DismissKeeps(t.slots, OnSurface(t.slots, t.pointer.value, 0), t.clock);
        }
      case Pass(now) =>
        SweepEffect(t.slots, now, 0);
        Thinned(t.slots, Swept(t.slots, now, 0), t.clock, now);
      case _ =>
    }
  }

  lemma {:induction false} RunKeeps(t: Tray, es: seq<Event>)
    requires Inv(t) && Possible(t, es)
    ensures Inv(After(t, es))
    decreases |es|
  {
    if |es| > 0 {
      NextKeeps(t, es[0]);
      RunKeeps(Next(t, es[0]), es[1..]);
    }
  }

  /** When a pass of the main loop ends, no bubble is past its time, and those that had time left are
      all still there. */
  lemma PassClears(t: Tray, now: int)
    requires Inv(t) && t.clock <= now
    ensures var r := Next(t, Pass(now)).slots;
      forall i :: 0 <= i < MAX ==>
        (r[i].active <==> t.slots[i].active && now < t.slots[i].expire) && (r[i].active ==> SameBubble(t.slots[i], r[i]))
  {
    SweepEffect(t.slots, now, 0);
  }

  /** A press puts away the bubble under the pointer and no other, and the pointer is on none from then on. */
  lemma PressDismisses(t: Tray, k: nat)
    requires Inv(t) && k < MAX && t.slots[k].active && t.pointer == Some(t.slots[k].surface)
    ensures var r := Next(t, Press); !r.slots[k].active && Spares(t.slots, r.slots, k) && r.pointer == None
  {
    DismissEffect(t.slots, k);
  }

  /** Where there is no bubble under the pointer, a press does nothing. */
  lemma PressMisses(t: Tray)
    requires Inv(t)
    requires t.pointer.Some? ==> forall i :: 0 <= i < MAX ==> !(t.slots[i].active && t.slots[i].surface == t.pointer.value)
    ensures Next(t, Press) == t
  {
  }

  /** A bubble whose surface is closed goes, and no other. */
  lemma ClosedGoes(t: Tray, k: nat)
    requires Inv(t) && k < MAX
    ensures var r := Next(t, Closed(k));
      !r.slots[k].active && Spares(t.slots, r.slots, k) && r.pointer == t.pointer && r.lastId == t.lastId
  {
    DismissEffect(t.slots, k);
  }

  /** A notification gets a bubble on its surface with a number of its own. */
  lemma NoticeEffect(t: Tray, now: int, timeout: int, surface: nat) returns (k: nat)
    requires Inv(t) && Enabled(t, Notice(now, timeout, surface)) && t.lastId < 0x1_0000_0000
    ensures k < MAX && Takes(t.slots, k)
    ensures var r := Next(t, Notice(now, timeout, surface)); var b := r.slots[k];
      && b.active && b.surface == surface && b.id == r.lastId != t.lastId && r.pointer == t.pointer
      && (t.lastId < 0xFFFF_FFFF ==> r.lastId == t.lastId + 1)
      && b.expire - now == (if timeout > 0 then timeout else 5000)
      && Spares(t.slots, r.slots, k)
  {
    hide Stacked, OwnSurfaces, InTime, Takes, Spares, Placed;
    k := Slot(t.slots);
    ShowEffect(t.slots, k, Notif(true, Expiry(now, timeout), (t.lastId + 1) % 0x1_0000_0000, surface, 0));
  }

  /** The first pass that takes a bubble away is the first one after the timeout asked for, or after five
      seconds if none is. */
  lemma NoticeLasts(t: Tray, now: int, timeout: int, surface: nat, later: int) returns (k: nat)
    requires Inv(t) && Enabled(t, Notice(now, timeout, surface)) && now <= later && t.lastId < 0x1_0000_0000
    ensures k < MAX && Takes(t.slots, k)
    ensures var p := Next(Next(t, Notice(now, timeout, surface)), Pass(later));
      && (p.slots[k].active <==> later - now < if timeout > 0 then timeout else 5000)
      && (p.slots[k].active ==> p.slots[k].surface == surface)
  {
    var r := Next(t, Notice(now, timeout, surface));
    assert r.clock == now;
    hide Inv, Enabled, Next, Takes, Spares;
    k := NoticeEffect(t, now, timeout, surface);
    NextKeeps(t, Notice(now, timeout, surface));
    PassClears(r, later);
  }

  // ---------------------------------------------------------------- the program's own state

  lemma TakesOnce(s: Slots, a: nat, b: nat)
    requires Takes(s, a) && Takes(s, b)
    ensures a == b
  {
    assert Full(s) ==> s[a].expire <= s[b].expire;
    assert !Full(s) ==> !s[a].active && !s[b].active;
  }

  class Notifier {
    const notifs: array<Notif>
    var nextId: nat
    var pointer: Option<nat>
    /** The latest clock reading. */
    ghost var clock: int

    ghost predicate Valid()
      reads this, notifs
    {
      notifs.Length == MAX
    }

    ghost function View(): Tray
      reads this, notifs
    {
      Tray(notifs[..], nextId, pointer, clock)
    }

    /** `restack`. */
    method Restack()
      requires Valid()
      modifies notifs
      ensures notifs[..] == Restacked(old(notifs[..]))
    {
      ghost var s := notifs[..];
      var y: int := GAP;
      var i := MAX - 1;
      while i >= 0
        invariant -1 <= i < MAX && y == GAP + ActiveFrom(s, i + 1) * (HEIGHT + GAP)
        invariant forall k :: 0 <= k <= i ==> notifs[k] == s[k]
        invariant forall k :: i < k < MAX ==> notifs[k] == Restacked(s)[k]
      {
        if notifs[i].active {
          notifs[i] := notifs[i].(top := y);
          y := y + HEIGHT + GAP;
        }
        i := i - 1;
      }
    }

    /** `dismiss`. */
    method Dismiss(k: nat)
      requires Valid() && k < MAX
      modifies notifs
      ensures notifs[..] == Dismissed(old(notifs[..]), k)
    {
      if !notifs[k].active {
        return;
      }
      notifs[k] := notifs[k].(active := false);
      assert notifs[..] == old(notifs[..])[k := old(notifs[k]).(active := false)];
      Restack();
    }

    /** The search at the head of `show`; `found` is false when all slots are taken. */
    method FindSlot() returns (slot: nat, found: bool)
      requires Valid() && InTime(notifs[..], clock)
      ensures Takes(notifs[..], slot) && (found <==> !Full(notifs[..]))
    {
      var oldest := -1;
      var oexp := INT64_MAX;
      for i := 0 to MAX
        invariant forall k :: 0 <= k < i ==> notifs[k].active && oexp <= notifs[k].expire
        invariant if i == 0 then oexp == INT64_MAX else 0 <= oldest < i && notifs[oldest].expire == oexp
        invariant forall k :: 0 <= k < oldest && k < i ==> oexp < notifs[k].expire
      {
        if !notifs[i].active {
          assert !notifs[..][i].active;
          return i, true;
        }
        if notifs[i].expire < oexp {
          oexp := notifs[i].expire;
          oldest := i;
        }
      }
      return oldest, false;
    }

    /** `show`; the clock reading and the new surface are parameters, the texts are left out. */
    method Show(now: int, timeout: int, surface: nat) returns (id: nat)
      requires Valid() && InTime(notifs[..], clock)
      modifies notifs, this`nextId, this`clock
      ensures View() == Next(old(View()), Notice(now, timeout, surface)) && id == nextId
    {
      hide Restacked, Full, Slot, InTime;
      ghost var s := notifs[..];
      var slot, found := FindSlot();
      TakesOnce(s, slot, Slot(s));
      if !found {
        Dismiss(slot);
      }
      nextId := (nextId + 1) % 0x1_0000_0000;
      id := nextId;
      ghost var a := notifs[..];
      notifs[slot] := Notif(true, now + (if timeout > 0 then timeout else DURATION), id, surface, 0);
      assert notifs[..] == a[slot := notifs[slot]];
      Restack();
      clock := now;
    }

    /** `ptr_button`, for a press. */
    method PtrButton()
      requires Valid()
      modifies notifs, this`pointer
      ensures View() == Next(old(View()), Press)
    {
      hide Dismissed;
      if pointer.None? {
        return;
      }
      for i := 0 to MAX
        invariant unchanged(this) && unchanged(notifs)
        invariant OnSurface(notifs[..], pointer.value, i) == OnSurface(notifs[..], pointer.value, 0)
      {
        if notifs[i].active && notifs[i].surface == pointer.value {
          Dismiss(i);
          pointer := None;
          break;
        }
      }
    }

    /** The expiry pass at the end of the main loop. */
    method Expire(now: int)
      requires Valid()
      modifies notifs, this`clock
      ensures View() == Next(old(View()), Pass(now))
    {
      hide Dismissed;
      for i := 0 to MAX
        invariant unchanged(this) && Swept(notifs[..], now, i) == Swept(old(notifs[..]), now, 0)
      {
        if notifs[i].active && now >= notifs[i].expire {
          Dismiss(i);
        }
      }
      clock := now;
    }

    method Handle(e: Event)
      requires Valid() && Inv(View()) && Enabled(View(), e)
      modifies this, notifs
      ensures View() == Next(old(View()), e)
    {
      hide Stacked, OwnSurfaces;
      match e {
        case Notice(now, timeout, surface) => var id := Show(now, timeout, surface);
        case Closed(k) => Dismiss(k);
        case Pointer(over) => pointer := over;
        case Press => PtrButton();
        case Pass(now) => Expire(now);
      }
    }

    /** Handling any possible sequence of events ends in the tray the run describes, and the invariant
        holds there, so that the preconditions of all handlers do. */
    method Run(es: seq<Event>)
      requires Valid() && Inv(View()) && Possible(View(), es)
      modifies this, notifs
      ensures Valid() && View() == After(old(View()), es) && Inv(View())
    {
      ghost var start := View();
      var k := 0;
      assert es[0..] == es;
      hide Inv, Next, Enabled;
      while k < |es|
        invariant 0 <= k <= |es| && Valid() && Inv(View()) && Possible(View(), es[k..])
        invariant After(View(), es[k..]) == After(start, es)
      {
        assert es[k..][1..] == es[k + 1..];
        NextKeeps(View(), es[k]);
        Handle(es[k]);
        k := k + 1;
      }
    }

    /** How long the main loop sleeps: forever without a bubble, else until the first one expires; the
        result fits a C `int`. */
    method PollTimeout(now: int) returns (tms: int)
      requires Valid() && InTime(notifs[..], now)
      ensures -1 <= tms <= INT_MAX
      ensures tms == -1 <==> forall i :: 0 <= i < MAX ==> !notifs[i].active
      ensures tms > 0 ==> forall i :: 0 <= i < MAX && notifs[i].active ==> now + tms <= notifs[i].expire
      ensures tms >= 0 ==> exists i :: 0 <= i < MAX && notifs[i].active && notifs[i].expire <= now + tms
    {
      var nxt := INT64_MAX;
      ghost var first := -1;
      for i := 0 to MAX
        invariant forall k :: 0 <= k < i && notifs[k].active ==> nxt <= notifs[k].expire
        invariant if first == -1 then nxt == INT64_MAX
                  else 0 <= first < i && notifs[first].active && notifs[first].expire == nxt < INT64_MAX
      {
        if notifs[i].active && notifs[i].expire < nxt {
          nxt := notifs[i].expire;
          first := i;
        }
      }
      tms := -1;
      if nxt != INT64_MAX {
        assert notifs[..][first].active;
        var d := nxt - now;
        tms := if d > 0 then d else 0;
      }
    }
  }
}
