/** The animation engine, over real numbers. */
module Easing {

  datatype Kind = Idle | Opening | Closing | Focusing

  /** The overshoot constant of `kum_ease_out_back`. */
  const C1 := 1.70158
  const C3 := 2.70158

  /** Above this value an opening or closing window's node is enabled. */
  const VISIBLE := 0.05

  // ---------------------------------------------------------------- curves

  function Cube(x: real): real {
    x * x * x
  }

  function OutCubic(t: real): real {
    var f := 1.0 - t;
    1.0 - f * f * f
  }

  function InCubic(t: real): real {
    t * t * t
  }

  function InOutCubic(t: real): real {
    if t < 0.5 then 4.0 * t * t * t
    else
      var f := 2.0 * t - 2.0;
      0.5 * f * f * f + 1.0
  }

  function OutBack(t: real): real {
    var f := t - 1.0;
    1.0 + C3 * f * f * f + C1 * f * f
  }

  predicate Unit(t: real) {
    0.0 <= t <= 1.0
  }

  lemma Times(a: real, b: real, c: real, d: real)
    requires 0.0 <= a <= b && 0.0 <= c <= d
    ensures 0.0 <= a * c <= b * d
  {
    assert (b - a) * d >= 0.0;
    assert a * (d - c) >= 0.0;
    assert a * c >= 0.0;
  }

  lemma CubeMono(x: real, y: real)
    requires 0.0 <= x <= y
    ensures 0.0 <= Cube(x) <= Cube(y)
  {
    Times(x, y, x, y);
    Times(x * x, y * y, x, y);
  }

  /** Closing and focusing curves run from 0 to 1 without turning back. */
  lemma CubicsRise(s: real, t: real)
    requires 0.0 <= s <= t <= 1.0
    ensures 0.0 <= InCubic(s) <= InCubic(t) <= 1.0
    ensures 0.0 <= OutCubic(s) <= OutCubic(t) <= 1.0
  {
    CubeMono(s, t);
    CubeMono(t, 1.0);
    CubeMono(1.0 - t, 1.0 - s);
    CubeMono(1.0 - s, 1.0);
  }

  lemma InOutHalves(t: real)
    requires Unit(t)
    ensures t < 0.5 ==> InOutCubic(t) == 4.0 * Cube(t) && 0.0 <= Cube(t) <= 0.125
    ensures t >= 0.5 ==> InOutCubic(t) == 1.0 - 4.0 * Cube(1.0 - t) && 0.0 <= Cube(1.0 - t) <= 0.125
  {
    if t < 0.5 {
      CubeMono(t, 0.5);
    } else {
      var u := 1.0 - t;
      CubeMono(u, 0.5);
      var f := 2.0 * t - 2.0;
      assert f == -2.0 * u;
      assert f * f == 4.0 * (u * u);
      assert f * f * f == -8.0 * Cube(u);
      assert 0.5 * f * f * f == 0.5 * (f * f * f);
    }
  }

  /** The curve in both directions rises from 0 to 1 and is symmetric about its midpoint. */
  lemma InOutRises(s: real, t: real)
    requires 0.0 <= s <= t <= 1.0
    ensures 0.0 <= InOutCubic(s) <= InOutCubic(t) <= 1.0
    ensures InOutCubic(s) + InOutCubic(1.0 - s) == 1.0
  {
    InOutHalves(s);
    InOutHalves(t);
    InOutHalves(1.0 - s);
    if t < 0.5 {
      CubeMono(s, t);
    } else if s >= 0.5 {
      CubeMono(1.0 - t, 1.0 - s);
    }
  }

  /** How far the overshooting curve is from 1, in terms of the time left. */
  lemma OutBackFromEnd(t: real)
    ensures var x := 1.0 - t;
      && OutBack(t) == 1.0 - (x * x) * (C3 * x - C1)
      && OutBack(t) == t * (C3 * (x * x) + x + 1.0)
  {
    var x := 1.0 - t;
    var f := t - 1.0;
    var xx := x * x;
    assert f == -x && f * f == xx && f * f * f == -(xx * x);
    assert C3 * f * f * f == C3 * (f * f * f) == -(C3 * (xx * x));
    assert C1 * f * f == C1 * (f * f);
    assert xx * (C3 * x - C1) == C3 * (xx * x) - C1 * xx;
    assert t * (C3 * xx + x + 1.0) == (1.0 - x) * (C3 * xx + x + 1.0);
    assert (1.0 - x) * (C3 * xx + x + 1.0) == C3 * xx + x + 1.0 - x * (C3 * xx + x + 1.0);
    assert x * (C3 * xx + x + 1.0) == C3 * (xx * x) + xx + x;
  }

  lemma PeakFactor(x: real, r: real)
    ensures ((x - r) * (x - r)) * (x + 0.5 * r) == Cube(x) - 1.5 * r * (x * x) + 0.5 * Cube(r)
  {
    var xx := x * x;
    var xr := x * r;
    var rr := r * r;
    assert (x - r) * (x - r) == xx - 2.0 * xr + rr;
    assert (xx - 2.0 * xr + rr) * x == xx * x - 2.0 * (xr * x) + rr * x;
    assert (xx - 2.0 * xr + rr) * r == xx * r - 2.0 * (xr * r) + rr * r;
    assert xr * x == xx * r && xr * r == rr * x;
    assert (xx - 2.0 * xr + rr) * (x + 0.5 * r) == (xx - 2.0 * xr + rr) * x + 0.5 * ((xx - 2.0 * xr + rr) * r);
  }

  /** The overshoot peaks where the time left is `2 * C1 / (3 * C3)`. */
  lemma Peak(x: real)
    requires Unit(x)
    ensures (x * x) * (C1 - C3 * x) <= 0.1001
  {
    var r := 2.0 * C1 / (3.0 * C3);
    assert 0.0 < r < 0.42 && 3.0 * C3 * r == 2.0 * C1;
    CubeMono(r, 0.42);
    assert Cube(r) <= 0.074088;
    var d := x - r;
    assert d * d >= 0.0;
    Times(0.0, d * d, 0.0, x + 0.5 * r);
    assert (d * d) * (x + 0.5 * r) == Cube(x) - 1.5 * r * (x * x) + 0.5 * Cube(r) by {
      PeakFactor(x, r);
    }
    assert C3 * (Cube(x) - 1.5 * r * (x * x) + 0.5 * Cube(r)) >= 0.0;
    assert C3 * (1.5 * r * (x * x)) == C1 * (x * x);
    assert (x * x) * (C1 - C3 * x) == C1 * (x * x) - C3 * Cube(x);
  }

  /** An opening window overshoots its final size by at most about a tenth and never shrinks below nothing. */
  lemma OutBackBounds(t: real)
    requires Unit(t)
    ensures 0.0 <= OutBack(t) <= 1.1001
  {
    OutBackFromEnd(t);
    var x := 1.0 - t;
    var xx := x * x;
    Times(0.0, t, 0.0, C3 * xx + x + 1.0);
    Peak(x);
  }

  /** Once the overshooting curve is past a value below 1 it stays past it. */
  lemma OutBackStaysAbove(s: real, t: real, v: real)
    requires 0.0 <= s <= t <= 1.0 && v < 1.0 && OutBack(s) > v
    ensures OutBack(t) > v
  {
    OutBackFromEnd(s);
    OutBackFromEnd(t);
    var x, y := 1.0 - t, 1.0 - s;
    Times(x, y, x, y);
    if C3 * x <= C1 {
      Times(0.0, x * x, 0.0, C1 - C3 * x);
      assert (x * x) * (C3 * x - C1) == -((x * x) * (C1 - C3 * x));
    } else {
      Times(x * x, y * y, C3 * x - C1, C3 * y - C1);
    }
  }

  /** The focusing curve is the closing one turned round, which is of the third degree, and the curve in
      both directions is made of two halves of it. */
  lemma CurvesMirror(s: real, t: real)
    ensures OutCubic(t) + InCubic(1.0 - t) == 1.0
    ensures InCubic(s * t) == InCubic(s) * InCubic(t) && InCubic(0.5) == 0.125
    ensures t < 0.5 ==> InOutCubic(t) == 0.5 * InCubic(2.0 * t)
  {
    var st, tt := s * t, t * t;
    assert st * st == (s * s) * tt;
    assert st * st * st == (s * s) * tt * (s * t) == (s * s * s) * (tt * t);
    var d := 2.0 * t;
    assert d * d == 4.0 * tt && d * d * d == 8.0 * (tt * t);
    assert 4.0 * t * t * t == 4.0 * (tt * t);
  }

  // ---------------------------------------------------------------- one animation

  datatype Anim = Anim(kind: Kind, start: real, duration: real, from: real, to: real, current: real, done: bool)

  function Eased(kind: Kind, t: real): real {
    match kind
    case Opening => OutBack(t)
    case Closing => InCubic(t)
    case Focusing => OutCubic(t)
    case Idle => t
  }

  /** The fraction of the duration that has passed, at most 1. */
  function Progress(a: Anim, now: real): real
    requires a.duration > 0.0
  {
    var t := (now - a.start) / a.duration;
    if t >= 1.0 then 1.0 else t
  }

  function Share(d: real, p: real): real {
    d * p
  }

  /** Where the animation stands at clock reading `now`. */
  function ValueAt(a: Anim, now: real): real
    requires a.duration > 0.0
  {
    a.from + Share(a.to - a.from, Eased(a.kind, Progress(a, now)))
  }

  /** `kum_anim_start`. */
  function Started(kind: Kind, from: real, to: real, duration: real, now: real): Anim {
    Anim(kind, now, duration, from, to, from, false)
  }

  /** `kum_anim_tick`. */
  function Ticked(a: Anim, now: real): Anim
    requires a.duration > 0.0
  {
    if a.done || a.kind == Idle then a
    else a.(current := ValueAt(a, now), done := (now - a.start) / a.duration >= 1.0)
  }

  lemma Ratio(x: real, y: real, d: real)
    requires 0.0 <= x <= y && d > 0.0
    ensures 0.0 <= x / d <= y / d && (x / d >= 1.0 <==> x >= d)
  {
    var p, q := x / d, y / d;
    assert p * d == x && q * d == y;
    assert (q - p) * d == y - x;
    assert (p - 1.0) * d == x - d;
  }

  lemma ProgressMono(a: Anim, now: real, later: real)
    requires a.duration > 0.0 && a.start <= now <= later
    ensures 0.0 <= Progress(a, now) <= Progress(a, later) <= 1.0
    ensures Progress(a, now) == 1.0 <==> now - a.start >= a.duration
  {
    Ratio(now - a.start, later - a.start, a.duration);
  }

  /** What every animation reached by ticking satisfies: it is finished only at its target, and until then
      it stands where the clock says. */
  ghost predicate OnCourse(a: Anim, clock: real) {
    && a.duration > 0.0 && a.start <= clock
    && (a.done ==> a.current == a.to && clock - a.start >= a.duration)
    && (!a.done && a.kind != Idle ==> a.current == a.from || exists t :: a.start <= t <= clock && a.current == ValueAt(a, t))
  }

  lemma EasedEnds(kind: Kind)
    ensures Eased(kind, 1.0) == 1.0
  {
  }

  lemma CubeBelow(x: real)
    requires 0.0 < x < 1.0
    ensures x * x * x < x
  {
    var xx, rest := x * x, x * (1.0 - x);
    assert rest > 0.0 && rest == x - xx;
    assert xx * x == xx - x * rest && x * rest > 0.0;
  }

  /** On its way a closing animation is behind the clock and a focusing one ahead of it; an opening one goes
      past its target by a tenth. */
  lemma CurveOfKind(t: real)
    requires 0.0 < t < 1.0
    ensures Eased(Closing, t) < t < Eased(Focusing, t) && Eased(Idle, t) == t
    ensures Eased(Opening, 0.58) > 1.1
  {
    CubeBelow(t);
    CubeBelow(1.0 - t);
  }

  /** After half its duration a closing animation has gone an eighth of its way, a focusing one all but an
      eighth. */
  lemma HalfTime(a: Anim)
    requires a.duration > 0.0
    ensures var v := ValueAt(a, a.start + a.duration / 2.0); var way := a.to - a.from;
      && (a.kind == Closing ==> v == a.from + way / 8.0)
      && (a.kind == Focusing ==> v == a.to - way / 8.0)
      && (a.kind == Opening ==> v == a.to + way * 0.0876975)
  {
    var d := a.duration / 2.0;
    assert d / a.duration == 0.5 by {
      assert 0.5 * a.duration == d;
    }
    assert Progress(a, a.start + d) == 0.5;
    hide Progress;
    assert OutBack(0.5) == 1.0876975;
  }

  /** Ticking with a clock that does not run backwards; finishing happens exactly when the duration has
      passed, leaves the animation at its target, and is permanent. */
  lemma TickKeeps(a: Anim, clock: real, now: real)
    requires OnCourse(a, clock) && clock <= now
    ensures var r := Ticked(a, now);
      && OnCourse(r, now)
      && (a.done ==> r == a)
      && (!a.done && a.kind != Idle ==> r.current == ValueAt(a, now) && (r.done <==> now - a.start >= a.duration))
  {
    if !a.done && a.kind != Idle {
      ProgressMono(a, now, now);
      var t := (now - a.start) / a.duration;
      assert t >= 1.0 <==> Progress(a, now) == 1.0;
      EasedEnds(a.kind);
      var r := Ticked(a, now);
      assert ValueAt(r, now) == ValueAt(a, now);
      assert r.done ==> r.current == a.from + Share(a.to - a.from, 1.0);
    }
  }

  /** The animation after frames drawn at these clock readings. */
  function AfterTicks(a: Anim, times: seq<real>): Anim
    requires a.duration > 0.0
    decreases |times|
  {
    if |times| == 0 then a else AfterTicks(Ticked(a, times[0]), times[1..])
  }

  ghost predicate Clock(from: real, times: seq<real>) {
    && (|times| > 0 ==> from <= times[0])
    && forall i :: 0 <= i && i + 1 < |times| ==> times[i] <= times[i + 1]
  }

  lemma ClockTail(from: real, times: seq<real>)
    requires Clock(from, times) && |times| > 0
    ensures Clock(times[0], times[1..])
  {
    var rest := times[1..];
    assert forall i :: 0 <= i < |rest| ==> rest[i] == times[i + 1];
  }

  lemma {:induction false} LastIsLatest(from: real, times: seq<real>)
    requires Clock(from, times) && |times| > 0
    ensures times[0] <= times[|times| - 1]
    decreases |times|
  {
    if |times| > 1 {
      ClockTail(from, times);
      LastIsLatest(times[0], times[1..]);
      assert times[0] <= times[0 + 1];
    }
  }

  /** Over any run of frames: the animation is finished exactly when it was before or the last frame came
      after its duration, and a finished animation stands exactly at its target. */
  lemma {:induction false} FinishesExactly(a: Anim, clock: real, times: seq<real>)
    requires OnCourse(a, clock) && Clock(clock, times) && a.kind != Idle
    ensures var r := AfterTicks(a, times);
      && (r.done <==> a.done || (|times| > 0 && times[|times| - 1] - a.start >= a.duration))
      && (r.done ==> r.current == a.to)
    decreases |times|
  {
    if |times| > 0 {
      ClockTail(clock, times);
      TickKeeps(a, clock, times[0]);
      FinishesExactly(Ticked(a, times[0]), times[0], times[1..]);
      if |times| > 1 {
        LastIsLatest(clock, times);
      }
    }
  }

  predicate Between(x: real, v: real, y: real) {
    if x <= y then x <= v <= y else y <= v <= x
  }

  lemma ShareUp(d: real, p: real, q: real)
    requires 0.0 <= d && 0.0 <= p <= q <= 1.0
    ensures 0.0 <= Share(d, p) <= Share(d, q) <= d
  {
    Times(d, d, p, q);
    Times(d, d, q, 1.0);
    assert d * 1.0 == d;
  }

  lemma ShareDown(d: real, p: real, q: real)
    requires d <= 0.0 && 0.0 <= p <= q <= 1.0
    ensures d <= Share(d, q) <= Share(d, p) <= 0.0
  {
    var e := -d;
    ShareUp(e, p, q);
    assert d * p == -(e * p) && d * q == -(e * q);
  }

  lemma Interpolated(from: real, to: real, p: real, q: real)
    requires 0.0 <= p <= q <= 1.0
    ensures Between(from, from + Share(to - from, p), to)
    ensures Between(from + Share(to - from, p), from + Share(to - from, q), to)
  {
    hide Share;
    if from <= to {
      ShareUp(to - from, p, q);
    } else {
      ShareDown(to - from, p, q);
    }
  }

  /** A closing or focusing animation moves from `from` to `to` without turning back. */
  lemma NeverTurnsBack(a: Anim, now: real, later: real)
    requires a.duration > 0.0 && a.start <= now <= later && (a.kind == Closing || a.kind == Focusing)
    ensures Between(a.from, ValueAt(a, now), a.to)
    ensures Between(ValueAt(a, now), ValueAt(a, later), a.to)
  {
    hide InCubic, OutCubic, OutBack, Progress, Share;
    ProgressMono(a, now, later);
    CubicsRise(Progress(a, now), Progress(a, later));
    Interpolated(a.from, a.to, Eased(a.kind, Progress(a, now)), Eased(a.kind, Progress(a, later)));
  }

  /** An opening animation from 0 to 1 stays between 0 and 1.1001. */
  lemma OpeningBounds(a: Anim, now: real)
    requires a.duration > 0.0 && a.start <= now && a.kind == Opening && a.from == 0.0 && a.to == 1.0
    ensures 0.0 <= ValueAt(a, now) <= 1.1001
  {
    ProgressMono(a, now, now);
    OutBackBounds(Progress(a, now));
  }

  // ---------------------------------------------------------------- showing and hiding the node

  /** A window's animation and the enabled flag of its scene node. */
  datatype Node = Node(anim: Anim, enabled: bool)

  /** Where an animation stands, by the clock. */
  type Level = real -> real

  function LevelOf(a: Anim): Level {
    (now: real) => if a.duration > 0.0 then ValueAt(a, now) else a.to
  }

  predicate Over(a: Anim, now: real)
    requires a.duration > 0.0
  {
    (now - a.start) / a.duration >= 1.0
  }

  /** The body of `tick_animations` for one window. */
  function Framed(n: Node, now: real): (r: Node)
    requires n.anim.duration > 0.0
    ensures r.anim == n.anim.(current := r.anim.current, done := r.anim.done)
  {
    if n.anim.done || n.anim.kind == Idle then n
    else
      var a := Ticked(n.anim, now);
      Node(a, if a.kind == Opening || a.kind == Closing then a.current > VISIBLE else n.enabled)
  }

  /** A frame of a running opening or closing animation shows the node exactly above a twentieth, and one of
      any other animation leaves its flag alone. */
  lemma FrameShows(n: Node, now: real)
    requires n.anim.duration > 0.0
    ensures var r := Framed(n, now);
      if !n.anim.done && (n.anim.kind == Opening || n.anim.kind == Closing) then
        r.anim.current == ValueAt(n.anim, now) && (r.enabled <==> r.anim.current > 0.05)
      else r.enabled == n.enabled
  {
    hide ValueAt;
  }

  /** How often the flag changes while the frames at `times` are drawn. */
  function Flips(n: Node, times: seq<real>): nat
    requires n.anim.duration > 0.0
    decreases |times|
  {
    if |times| == 0 then 0
    else
      var r := Framed(n, times[0]);
      (if r.enabled != n.enabled then 1 else 0) + Flips(r, times[1..])
  }

  /** The same for an animation known only by where it stands when: at `level`. */
  function LeveledFrame(level: Level, n: Node, now: real): (r: Node)
    requires n.anim.duration > 0.0
    ensures r.anim == n.anim.(current := r.anim.current, done := r.anim.done)
  {
    if n.anim.done || n.anim.kind == Idle then n
    else
      var a := n.anim.(current := level(now), done := Over(n.anim, now));
      Node(a, if a.kind == Opening || a.kind == Closing then a.current > VISIBLE else n.enabled)
  }

  function LeveledFlips(level: Level, n: Node, times: seq<real>): nat
    requires n.anim.duration > 0.0
    decreases |times|
  {
    if |times| == 0 then 0
    else
      var r := LeveledFrame(level, n, times[0]);
      (if r.enabled != n.enabled then 1 else 0) + LeveledFlips(level, r, times[1..])
  }

  /** The same animation, at two moments. */
  predicate SameCourse(a: Anim, b: Anim) {
    b == a.(current := b.current, done := b.done)
  }

  /** Ticking puts the animation at its level, at every moment of its course. */
  lemma FrameTicks(a: Anim, n: Node, now: real)
    requires a.duration > 0.0 && SameCourse(a, n.anim)
    ensures Framed(n, now) == LeveledFrame(LevelOf(a), n, now) && SameCourse(a, Framed(n, now).anim)
  {
    hide Eased, Share;
    assert Progress(n.anim, now) == Progress(a, now);
  }

  /** So a run of frames flips the flag as often as the level says. */
  lemma {:induction false} FramesTick(a: Anim, n: Node, times: seq<real>)
    requires a.duration > 0.0 && SameCourse(a, n.anim)
    ensures Flips(n, times) == LeveledFlips(LevelOf(a), n, times)
    decreases |times|
  {
    hide Framed, LeveledFrame, LevelOf;
    if |times| > 0 {
      FrameTicks(a, n, times[0]);
      FramesTick(a, Framed(n, times[0]), times[1..]);
    }
  }

  /** An opening from 0 to 1, or a closing from 1 to 0. */
  predicate ShowsOrHides(a: Anim) {
    || (a.kind == Opening && a.from == 0.0 && a.to == 1.0)
    || (a.kind == Closing && a.from == 1.0 && a.to == 0.0)
  }

  /** The flag the animation ends with. */
  predicate Target(a: Anim) {
    a.to > VISIBLE
  }

  /** From `start` on, the level does not cross the threshold back. */
  ghost predicate CrossesOnce(level: Level, start: real, target: bool) {
    forall s, t :: start <= s <= t && (level(s) > VISIBLE) == target ==> (level(t) > VISIBLE) == target
  }

  /** Opening and closing animations cross the threshold once. */
  lemma LevelCrossesOnce(a: Anim)
    requires a.duration > 0.0 && ShowsOrHides(a)
    ensures CrossesOnce(LevelOf(a), a.start, Target(a))
  {
    hide OutBack, InCubic, OutCubic;
    forall s, t | a.start <= s <= t && (LevelOf(a)(s) > VISIBLE) == Target(a)
      ensures (LevelOf(a)(t) > VISIBLE) == Target(a)
    {
      ProgressMono(a, s, t);
      if a.kind == Opening {
        OutBackStaysAbove(Progress(a, s), Progress(a, t), VISIBLE);
      } else {
        NeverTurnsBack(a, s, t);
      }
    }
  }

  /** After the crossing the flag never changes again. */
  lemma {:induction false} SettledFlag(level: Level, n: Node, clock: real, times: seq<real>)
    requires n.anim.duration > 0.0 && ShowsOrHides(n.anim) && Clock(clock, times)
    requires CrossesOnce(level, clock, Target(n.anim))
    requires n.enabled == Target(n.anim) && (!n.anim.done ==> (level(clock) > VISIBLE) == Target(n.anim))
    ensures LeveledFlips(level, n, times) == 0
    decreases |times|
  {
    if |times| > 0 {
      ClockTail(clock, times);
      SettledFlag(level, LeveledFrame(level, n, times[0]), times[0], times[1..]);
    }
  }

  /** Starting from the opposite flag, it changes at most once. */
  lemma {:induction false} FlipsOnce(level: Level, n: Node, clock: real, times: seq<real>)
    requires n.anim.duration > 0.0 && ShowsOrHides(n.anim) && Clock(clock, times)
    requires CrossesOnce(level, clock, Target(n.anim)) && n.enabled != Target(n.anim)
    ensures LeveledFlips(level, n, times) <= 1
    decreases |times|
  {
    if |times| > 0 {
      ClockTail(clock, times);
      var r := LeveledFrame(level, n, times[0]);
      if r.enabled == n.enabled {
        FlipsOnce(level, r, times[0], times[1..]);
      } else {
        SettledFlag(level, r, times[0], times[1..]);
      }
    }
  }

  ghost predicate AtMostOneFlip(n: Node)
    requires n.anim.duration > 0.0
  {
    forall times :: Clock(n.anim.start, times) ==> Flips(n, times) <= 1
  }

  lemma LevelEnds(a: Anim)
    requires a.duration > 0.0 && ShowsOrHides(a)
    ensures ValueAt(a, a.start) == a.from && ValueAt(a, a.start + a.duration) == a.to
    ensures !Over(a, a.start) && Over(a, a.start + a.duration)
  {
    assert Progress(a, a.start) == 0.0;
    ProgressMono(a, a.start + a.duration, a.start + a.duration);
    Ratio(0.0, a.duration, a.duration);
  }

  lemma FrameEnds(n: Node)
    requires n.anim.duration > 0.0 && ShowsOrHides(n.anim) && !n.anim.done
    ensures var one := Framed(n, n.anim.start);
      && one.enabled == (n.anim.from > VISIBLE) && !one.anim.done && SameCourse(n.anim, one.anim)
      && Framed(one, n.anim.start + n.anim.duration).enabled == Target(n.anim)
  {
    hide ValueAt;
    LevelEnds(n.anim);
    LevelEnds(Framed(n, n.anim.start).anim);
  }

  /** A frame at the very start and one at the very end: the flag goes away from its target and comes back. */
  lemma FlipsTwice(n: Node)
    requires n.anim.duration > 0.0 && ShowsOrHides(n.anim) && !n.anim.done && n.enabled == Target(n.anim)
    ensures var times := [n.anim.start, n.anim.start + n.anim.duration];
      Clock(n.anim.start, times) && Flips(n, times) == 2
  {
    FrameEnds(n);
    hide Framed;
    var times := [n.anim.start, n.anim.start + n.anim.duration];
    var one := Framed(n, times[0]);
    var two := Framed(one, times[1]);
    assert times[1..] == [times[1]] && times[1..][1..] == [];
    assert Flips(one, times[1..]) == (if two.enabled != one.enabled then 1 else 0) + Flips(two, times[1..][1..]);
  }

  /** One opening or closing animation changes the node's enabled flag at most once, however the frames
      fall, exactly when the node starts out hidden before an opening and shown before a closing. */
  lemma AtMostOneFlipIff(kind: Kind, from: real, to: real, duration: real, now: real, enabled: bool)
    requires duration > 0.0 && ShowsOrHides(Started(kind, from, to, duration, now))
    ensures AtMostOneFlip(Node(Started(kind, from, to, duration, now), enabled)) <==> enabled == (from > VISIBLE)
  {
    var a := Started(kind, from, to, duration, now);
    var n := Node(a, enabled);
    if enabled == (from > VISIBLE) {
      LevelCrossesOnce(a);
      forall times | Clock(a.start, times)
        ensures Flips(n, times) <= 1
      {
        FramesTick(a, n, times);
        FlipsOnce(LevelOf(a), n, a.start, times);
      }
    } else {
      FlipsTwice(n);
    }
  }

  // ---------------------------------------------------------------- the structure the compositor ticks

  class KumAnimation {
    var kind: Kind
    var start: real
    var duration: real
    var from: real
    var to: real
    var current: real
    var done: bool

    function View(): Anim
      reads this
    {
      Anim(kind, start, duration, from, to, current, done)
    }

    /** `kum_anim_start`; the clock reading is a parameter. */
    method Start(k: Kind, f: real, t: real, ms: real, now: real)
      modifies this
      ensures View() == Started(k, f, t, ms, now)
    {
      kind := k;
      from := f;
      to := t;
      duration := ms;
      current := f;
      done := false;
      start := now;
    }

    /** `kum_anim_tick`. */
    method Tick(now: real)
      requires duration > 0.0
      modifies this`current, this`done
      ensures View() == Ticked(old(View()), now)
    {
      if done || kind == Idle {
        return;
      }
      var t := (now - start) / duration;
      if t >= 1.0 {
        t := 1.0;
        done := true;
      }
      var eased;
      match kind {
        case Opening => eased := OutBack(t);
        case Closing => eased := InCubic(t);
        case Focusing => eased := OutCubic(t);
        case Idle => eased := t;
      }
      current := from + (to - from) * eased;
    }
  }

  /** A window as far as `tick_animations` goes. */
  class KumNode {
    const anim: KumAnimation
    var enabled: bool

    constructor (anim: KumAnimation, enabled: bool)
      ensures this.anim == anim && this.enabled == enabled
    {
      this.anim := anim;
      this.enabled := enabled;
    }

    function View(): Node
      reads this, anim
    {
      Node(anim.View(), enabled)
    }

    /** The body of `tick_animations`. */
    method Frame(now: real)
      requires anim.duration > 0.0
      modifies this, anim
      ensures View() == Framed(old(View()), now)
    {
      if anim.done || anim.kind == Idle {
        return;
      }
      anim.Tick(now);
      if anim.kind == Opening || anim.kind == Closing {
        enabled := anim.current > VISIBLE;
      }
    }
  }

  /** `tick_animations`: one frame for every window, each with an animation of its own. */
  method TickAnimations(toplevels: seq<KumNode>, now: real)
    requires forall n :: n in toplevels ==> n.anim.duration > 0.0
    requires forall i, j :: 0 <= i < j < |toplevels| ==>
      toplevels[i] != toplevels[j] && toplevels[i].anim != toplevels[j].anim
    modifies toplevels, set n | n in toplevels :: n.anim
    ensures forall n :: n in toplevels ==> n.View() == Framed(old(n.View()), now)
  {
    hide Framed;
    for i := 0 to |toplevels|
      invariant forall j :: 0 <= j < i ==> toplevels[j].View() == Framed(old(toplevels[j].View()), now)
      invariant forall j :: i <= j < |toplevels| ==> toplevels[j].View() == old(toplevels[j].View())
    {
      toplevels[i].Frame(now);
    }
  }
}
