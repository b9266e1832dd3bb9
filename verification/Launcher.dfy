/** kumlauncher's result list: filtering, selection, scrolling and hit testing. */
module Launcher {
  import opened Prelude

  type Byte = b: int | 0 <= b < 256
  type Text = seq<Byte>

  const NUL: Byte := 0

  /** The text of a C string, up to its terminator. */
  type Name = t: Text | NUL !in t

  const MAX_ENTRIES: nat := 1024
  const MAX_QUERY: nat := 128
  const ITEM_HEIGHT: nat := 38
  const VISIBLE_ROWS: nat := 10

  // ---------------------------------------------------------------- matching

  /** `tolower` in the C locale. */
  function Lower(b: Byte): Byte {
    if 65 <= b <= 90 then b + 32 else b
  }

  /** The query reads the same, letter case aside, at position `at` of the name. */
  predicate MatchesAt(name: Text, query: Text, at: nat) {
    at + |query| <= |name| && forall i :: 0 <= i < |query| ==> Lower(name[at + i]) == Lower(query[i])
  }

  /** What `strcasestr` and `strncasecmp` see of a query: typing can put a NUL into it. */
  function Visible(query: Text): (r: Name)
    ensures r <= query && (r == query || query[|r|] == NUL)
  {
    if |query| == 0 || query[0] == NUL then [] else [query[0]] + Visible(query[1..])
  }

  /** `strncasecmp` over the query's whole length: a NUL in it has to meet the end of the name. */
  predicate IsPrefix(name: Name, query: Text) {
    MatchesAt(name, Visible(query), 0) && (NUL in query ==> |name| == |Visible(query)|)
  }

  /** `strcasestr`. */
  predicate Contains(name: Name, query: Text) {
    exists at :: 0 <= at <= |name| && MatchesAt(name, Visible(query), at)
  }

  // ---------------------------------------------------------------- filtering

  ghost predicate Ascending(r: seq<nat>) {
    forall i, j :: 0 <= i < j < |r| ==> r[i] < r[j]
  }

  /** The entries below `n` that start with the query, in entry order. */
  function Prefixed(names: seq<Name>, query: Text, n: nat): (r: seq<nat>)
    requires n <= |names|
    ensures |r| <= n && Ascending(r)
    ensures forall x: nat :: x in r <==> x < n && IsPrefix(names[x], query)
  {
    if n == 0 then []
    else
      var r := Prefixed(names, query, n - 1);
      assert forall i :: 0 <= i < |r| ==> r[i] in r;
      if IsPrefix(names[n - 1], query) then r + [n - 1] else r
  }

  /** The entries below `n` that contain the query further in, in entry order. */
  function Inner(names: seq<Name>, query: Text, n: nat): (r: seq<nat>)
    requires n <= |names|
    ensures |Prefixed(names, query, n)| + |r| <= n && Ascending(r)
    ensures forall x: nat :: x in r <==> x < n && !IsPrefix(names[x], query) && Contains(names[x], query)
  {
    if n == 0 then []
    else
      var r := Inner(names, query, n - 1);
      assert forall i :: 0 <= i < |r| ==> r[i] in r;
      if !IsPrefix(names[n - 1], query) && Contains(names[n - 1], query) then r + [n - 1] else r
  }

  /** What `filter_entries` leaves in `filtered`. */
  function Filtered(names: seq<Name>, query: Text): (r: seq<nat>)
    ensures |r| <= |names|
  {
    if |query| == 0 then seq(|names|, i => i)
    else Prefixed(names, query, |names|) + Inner(names, query, |names|)
  }

  /** An entry that comes before another one in the result: prefix matches first, then entry order. */
  predicate Before(names: seq<Name>, query: Text, a: nat, b: nat)
    requires a < |names| && b < |names|
  {
    if IsPrefix(names[a], query) == IsPrefix(names[b], query) then a < b else IsPrefix(names[a], query)
  }

  ghost predicate InOrder(names: seq<Name>, query: Text, r: seq<nat>) {
    && (forall i :: 0 <= i < |r| ==> r[i] < |names|)
    && (forall i, j :: 0 <= i < j < |r| ==> Before(names, query, r[i], r[j]))
  }

  /** The result lists exactly the entries that contain the query, strictly in that order. */
  ghost predicate Ranked(names: seq<Name>, query: Text, r: seq<nat>) {
    && (forall x: nat :: x in r <==> x < |names| && Contains(names[x], query))
    && InOrder(names, query, r)
  }

  lemma PrefixContains(name: Name, query: Text)
    requires IsPrefix(name, query)
    ensures Contains(name, query)
  {
    assert MatchesAt(name, Visible(query), 0);
  }

  lemma FilteredOrder(names: seq<Name>, query: Text)
    ensures InOrder(names, query, Prefixed(names, query, |names|) + Inner(names, query, |names|))
  {
    hide Prefixed, Inner, MatchesAt, Contains;
    var p := Prefixed(names, query, |names|);
    var q := Inner(names, query, |names|);
    var r := p + q;
    assert forall i :: 0 <= i < |p| ==> p[i] in p;
    assert forall i :: 0 <= i < |q| ==> q[i] in q;
    forall i, j | 0 <= i < j < |r|
      ensures r[i] < |names| && r[j] < |names|
      ensures Before(names, query, r[i], r[j])
    {
      assert r[i] == if i < |p| then p[i] else q[i - |p|];
      assert r[j] == if j < |p| then p[j] else q[j - |p|];
    }
  }

  /** Filtering ranks: the matching entries, all of them, once each, prefix matches first. */
  lemma FilteredRanked(names: seq<Name>, query: Text)
    ensures Ranked(names, query, Filtered(names, query))
  {
    var r := Filtered(names, query);
    forall x: nat | x < |names| && IsPrefix(names[x], query)
      ensures Contains(names[x], query)
    {
      PrefixContains(names[x], query);
    }
    hide MatchesAt, Prefixed, Inner;
    if |query| == 0 {
      forall x: nat | x < |names|
        ensures x in r && IsPrefix(names[x], query)
      {
        assert r[x] == x;
      }
    } else {
      FilteredOrder(names, query);
    }
  }

  function Members(s: seq<nat>): (r: set<nat>)
    ensures forall x :: x in r <==> x in s
    ensures |s| > 0 ==> s[0] in r
  {
    set x | x in s
  }

  lemma SameHead(names: seq<Name>, query: Text, a: seq<nat>, b: seq<nat>)
    requires |a| > 0 && |b| > 0 && (forall x: nat :: x in a <==> x in b)
    requires InOrder(names, query, a)
    requires InOrder(names, query, b)
    ensures a[0] == b[0]
  {
    assert a[0] in b && b[0] in a;
    var i :| 0 <= i < |a| && a[i] == b[0];
    var j :| 0 <= j < |b| && b[j] == a[0];
    assert i > 0 ==> Before(names, query, a[0], b[0]);
    assert j > 0 ==> Before(names, query, b[0], a[0]);
  }

  lemma SameTail(names: seq<Name>, query: Text, a: seq<nat>, b: seq<nat>)
    requires |a| > 0 && |b| > 0 && a[0] == b[0] && (forall x: nat :: x in a <==> x in b)
    requires InOrder(names, query, a)
    requires InOrder(names, query, b)
    ensures forall x: nat :: x in a[1..] <==> x in b[1..]
  {
    var head := a[0];
    assert a == [head] + a[1..] && b == [head] + b[1..];
    assert forall i :: 1 <= i < |a| ==> Before(names, query, a[0], a[i]);
    assert forall i :: 1 <= i < |b| ==> Before(names, query, b[0], b[i]);
    assert head !in a[1..] && head !in b[1..];
    forall x: nat
      ensures x in a[1..] <==> x in b[1..]
    {
      assert x in a <==> x == head || x in a[1..];
      assert x in b <==> x == head || x in b[1..];
    }
  }

  /** And ranking leaves no freedom: any two ranked lists of the same entries are equal. */
  lemma {:induction false} RankedUnique(names: seq<Name>, query: Text, a: seq<nat>, b: seq<nat>)
    requires forall x: nat :: x in a <==> x in b
    requires InOrder(names, query, a)
    requires InOrder(names, query, b)
    ensures a == b
  {
    if |a| == 0 || |b| == 0 {
      assert Members(a) == Members(b);
    } else {
      SameHead(names, query, a, b);
      SameTail(names, query, a, b);
      RankedUnique(names, query, a[1..], b[1..]);
      assert a == [a[0]] + a[1..] && b == [b[0]] + b[1..];
    }
  }

  /** So a list is what filtering yields exactly when it is ranked. */
  lemma FilteredExactly(names: seq<Name>, query: Text, r: seq<nat>)
    ensures Ranked(names, query, r) <==> r == Filtered(names, query)
  {
    FilteredRanked(names, query);
    if Ranked(names, query, r) {
      RankedUnique(names, query, r, Filtered(names, query));
    }
  }

  lemma VisibleTwice(query: Text)
    ensures Visible(Visible(query)) == Visible(query)
  {
    var r := Visible(query);
    assert NUL !in r;
  }

  /** A query with a NUL in it lists the entries its text before the NUL lists. It favours fewer of them:
      only those whose whole name is that text. */
  lemma NulKeepsEntries(names: seq<Name>, query: Text)
    ensures forall x: nat :: x in Filtered(names, query) <==> x in Filtered(names, Visible(query))
    ensures forall x: nat :: x < |names| && IsPrefix(names[x], query) ==> IsPrefix(names[x], Visible(query))
    ensures NUL in query ==> forall x: nat :: x < |names| ==>
      (IsPrefix(names[x], query) <==> IsPrefix(names[x], Visible(query)) && |names[x]| == |Visible(query)|)
  {
    VisibleTwice(query);
    FilteredRanked(names, query);
    FilteredRanked(names, Visible(query));
    hide Filtered, MatchesAt, InOrder, Visible;
    assert forall x: nat :: x < |names| ==> (Contains(names[x], query) <==> Contains(names[x], Visible(query)));
  }

  lemma TwoEntries(names: seq<Name>, query: Text, i: nat, j: nat)
    requires |names| == 2 && i < 2 && j == 1 - i
    requires Contains(names[0], query) && Contains(names[1], query) && Before(names, query, i, j)
    ensures Filtered(names, query) == [i, j]
  {
    hide Filtered, Contains, Before;
    var r := [i, j];
    assert forall x: nat :: x in r <==> x < 2;
    FilteredExactly(names, query, r);
  }

  /** So the NUL can cost an entry its place: one that starts with the text no longer comes first. */
  lemma NulReorders(a: Name, b: Name, query: Text)
    requires NUL in query && Contains(a, query) && !IsPrefix(a, Visible(query))
    requires IsPrefix(b, Visible(query)) && |b| != |Visible(query)|
    ensures Filtered([a, b], query) == [0, 1] && Filtered([a, b], Visible(query)) == [1, 0]
  {
    VisibleTwice(query);
    PrefixContains(b, Visible(query));
    hide Filtered, MatchesAt, Visible;
    TwoEntries([a, b], query, 0, 1);
    TwoEntries([a, b], Visible(query), 1, 0);
  }

  // ---------------------------------------------------------------- the list on screen

  datatype View = View(query: Text, filtered: seq<nat>, selected: int, scroll: int, pointerY: real,
                       launched: Option<nat>, running: bool)
  {
    function Count(): nat {
      |filtered|
    }

    /** Rows drawn. */
    function Rows(): nat {
      if Count() < VISIBLE_ROWS then Count() else VISIBLE_ROWS
    }

    function Height(): nat {
      ITEM_HEIGHT + Rows() * ITEM_HEIGHT + 4
    }
  }

  /** The vertical band `render` gives the `i`-th visible row. */
  predicate InBand(i: nat, y: real) {
    (ITEM_HEIGHT + i * ITEM_HEIGHT) as real <= y < (ITEM_HEIGHT + (i + 1) * ITEM_HEIGHT) as real
  }

  /** `row_at`. */
  function RowAt(v: View, y: real): int {
    if y < ITEM_HEIGHT as real then -1
    else
      var row := ((y - ITEM_HEIGHT as real) / ITEM_HEIGHT as real).Floor;
      if row < 0 || v.scroll + row >= v.Count() || row >= v.Rows() then -1 else v.scroll + row
  }

  /** The selection is on screen and the list is never scrolled past its end. */
  predicate OnScreen(v: View) {
    if v.Count() == 0 then v.scroll == 0 && -1 <= v.selected <= 0
    else
      && 0 <= v.scroll <= v.selected < v.scroll + VISIBLE_ROWS && v.selected < v.Count()
      && (v.scroll == 0 || v.scroll <= v.Count() - VISIBLE_ROWS)
  }

  ghost predicate Ok(names: seq<Name>, v: View) {
    Ranked(names, v.query, v.filtered) && OnScreen(v) && |v.query| < MAX_QUERY - 1
  }

  datatype Input =
    | Escape
    | Return
    | BackSpace
    | Up
    | Down
    | PageUp
    | PageDown
    | Typed(bytes: Text)
    | Motion(y: real)
    | Click
    | Wheel(value: real)

  lemma InRange(v: View)
    requires OnScreen(v)
    ensures v.Count() > 0 ==> 0 <= v.selected < v.Count()
  {
  }

  function Refiltered(names: seq<Name>, v: View, query: Text): View {
    v.(query := query, filtered := Filtered(names, query), selected := 0, scroll := 0)
  }

  function SelectedUp(v: View, to: int): View {
    v.(selected := to, scroll := if to < v.scroll then to else v.scroll)
  }

  function SelectedDown(v: View, to: int): View {
    v.(selected := to, scroll := if to >= v.scroll + VISIBLE_ROWS then to - VISIBLE_ROWS + 1 else v.scroll)
  }

  /** `launch_selected`. */
  function Launched(v: View): View
    requires v.Count() > 0 ==> 0 <= v.selected < v.Count()
  {
    if v.Count() == 0 then v
    else v.(launched := Some(v.filtered[v.selected]), running := false)
  }

  function Next(names: seq<Name>, v: View, e: Input): (r: View)
    requires OnScreen(v)
    ensures OnScreen(r)
  {
    hide Filtered;
    match e
    case Escape => v.(running := false)
    case Return => Launched(v)
    case BackSpace => if |v.query| > 0 then Refiltered(names, v, v.query[..|v.query| - 1]) else v
    case Up => if v.selected > 0 then SelectedUp(v, v.selected - 1) else v
    case Down => if v.selected < v.Count() - 1 then SelectedDown(v, v.selected + 1) else v
    case PageUp => SelectedUp(v, if v.selected < VISIBLE_ROWS then 0 else v.selected - VISIBLE_ROWS)
    case PageDown =>
      SelectedDown(v, if v.selected + VISIBLE_ROWS >= v.Count() then v.Count() - 1 else v.selected + VISIBLE_ROWS)
    case Typed(bytes) =>
      if |bytes| > 0 && |v.query| + |bytes| < MAX_QUERY - 1 then Refiltered(names, v, v.query + bytes) else v
    case Motion(y) =>
      var idx := RowAt(v, y);
      if idx >= 0 then v.(pointerY := y, selected := idx) else v.(pointerY := y)
    case Click =>
      var idx := RowAt(v, v.pointerY);
      if idx >= 0 then Launched(v.(selected := idx)) else v
    case Wheel(value) =>
      if value > 0.0 && v.selected < v.Count() - 1 then SelectedDown(v, v.selected + 1)
      else if value < 0.0 && v.selected > 0 then SelectedUp(v, v.selected - 1)
      else v
  }

  function AfterInputs(names: seq<Name>, v: View, es: seq<Input>): (r: View)
    requires OnScreen(v)
    decreases |es|
  {
    if |es| == 0 then v else AfterInputs(names, Next(names, v, es[0]), es[1..])
  }

  lemma BandOf(i: nat, y: real)
    ensures InBand(i, y) <==> y >= 38.0 && ((y - 38.0) / 38.0).Floor == i
  {
    var q := (y - 38.0) / 38.0;
    assert q * 38.0 == y - 38.0;
    assert InBand(i, y) <==> i as real * 38.0 <= y - 38.0 < i as real * 38.0 + 38.0;
  }

  /** A row is hit exactly in the band `render` draws it in, and nothing is hit elsewhere. */
  lemma RowAtInvertsBands(v: View, y: real)
    requires OnScreen(v)
    ensures forall i: nat :: i < v.Rows() ==> (RowAt(v, y) == v.scroll + i <==> InBand(i, y))
    ensures RowAt(v, y) == -1 <==> forall i: nat :: i < v.Rows() ==> !InBand(i, y)
    ensures RowAt(v, y) == -1 || v.scroll <= RowAt(v, y) < v.scroll + v.Rows()
  {
    var row := ((y - 38.0) / 38.0).Floor;
    forall i: nat
      ensures InBand(i, y) <==> y >= 38.0 && row == i
    {
      BandOf(i, y);
    }
    assert RowAt(v, y) != -1 ==> InBand(row, y);
    assert y >= 38.0 ==> InBand(row, y);
  }

  lemma FilteredKeeps(names: seq<Name>, v: View, query: Text)
    requires |query| < MAX_QUERY - 1
    ensures Ok(names, Refiltered(names, v, query))
  {
    FilteredRanked(names, query);
  }

  /** Every key press, click, wheel step and pointer motion keeps the list in order. */
  lemma NextKeeps(names: seq<Name>, v: View, e: Input)
    requires Ok(names, v)
    ensures Ok(names, Next(names, v, e))
  {
    hide Ranked, Filtered;
    match e {
      case BackSpace => if |v.query| > 0 { FilteredKeeps(names, v, v.query[..|v.query| - 1]); }
      case Typed(bytes) =>
        if |v.query| + |bytes| < MAX_QUERY - 1 { FilteredKeeps(names, v, v.query + bytes); }
      case _ =>
    }
  }

  lemma {:induction false} InputsKeep(names: seq<Name>, v: View, es: seq<Input>)
    requires Ok(names, v)
    ensures Ok(names, AfterInputs(names, v, es))
    decreases |es|
  {
    if |es| > 0 {
      NextKeeps(names, v, es[0]);
      InputsKeep(names, Next(names, v, es[0]), es[1..]);
    }
  }

  /** Something is launched exactly by Return with a nonempty list or by a click on a drawn row; it is
      the entry highlighted from then on, one of those drawn, and it contains the query. */
  lemma LaunchesWhatIsShown(names: seq<Name>, v: View, e: Input)
    requires Ok(names, v) && v.launched.None?
    ensures var r := Next(names, v, e);
      && (r.launched.Some? <==> (e.Return? && v.Count() > 0) || (e.Click? && RowAt(v, v.pointerY) >= 0))
      && (r.launched.Some? ==>
            && r.filtered == v.filtered && r.scroll == v.scroll && r.scroll <= r.selected < r.scroll + r.Rows()
            && r.launched == Some(r.filtered[r.selected])
            && r.launched.value < |names| && Contains(names[r.launched.value], v.query))
  {
    hide Filtered, Contains;
    RowAtInvertsBands(v, v.pointerY);
    var r := Next(names, v, e);
    assert r.launched.Some? ==> r.filtered[r.selected] in v.filtered;
  }

  // ---------------------------------------------------------------- what each input does

  /** `r` is `v` with `selected` selected, scrolled no further than it takes to have it on screen. */
  predicate Selects(v: View, r: View, selected: int) {
    && r == v.(selected := selected, scroll := r.scroll)
    && (selected < v.scroll ==> r.scroll == selected)
    && (v.scroll <= selected < v.scroll + VISIBLE_ROWS ==> r.scroll == v.scroll)
    && (selected >= v.scroll + VISIBLE_ROWS ==> r.scroll + VISIBLE_ROWS - 1 == selected)
  }

  function Min(a: int, b: int): int {
    if a < b then a else b
  }

  function Max(a: int, b: int): int {
    if a < b then b else a
  }

  /** Down and Up go one entry on or back, Page Down and Page Up ten, all of them no further than the last
      or the first entry. */
  lemma KeysSelect(names: seq<Name>, v: View)
    requires OnScreen(v) && v.Count() > 0
    ensures Selects(v, Next(names, v, Down), Min(v.selected + 1, v.Count() - 1))
    ensures Selects(v, Next(names, v, Up), Max(v.selected - 1, 0))
    ensures Selects(v, Next(names, v, PageDown), Min(v.selected + VISIBLE_ROWS, v.Count() - 1))
    ensures Selects(v, Next(names, v, PageUp), Max(v.selected - VISIBLE_ROWS, 0))
  {
    hide Filtered;
  }

  /** A wheel step down is Down, one up is Up, and a step of 0 is nothing. */
  lemma WheelSelects(names: seq<Name>, v: View, value: real)
    requires OnScreen(v) && v.Count() > 0
    ensures Selects(v, Next(names, v, Wheel(value)),
              if value > 0.0 then Min(v.selected + 1, v.Count() - 1)
              else if value < 0.0 then Max(v.selected - 1, 0)
              else v.selected)
  {
    hide Filtered;
  }

  /** The pointer selects the row it is on, and none where no row is drawn; a click launches that row's entry,
      and nothing where no row is drawn. */
  lemma PointerSelects(names: seq<Name>, v: View, y: real)
    requires OnScreen(v)
    ensures forall i: nat :: i < v.Rows() && InBand(i, y) ==>
      Next(names, v, Motion(y)) == v.(pointerY := y, selected := v.scroll + i)
    ensures (forall i: nat :: i < v.Rows() ==> !InBand(i, y)) ==> Next(names, v, Motion(y)) == v.(pointerY := y)
    ensures forall i: nat :: i < v.Rows() && InBand(i, v.pointerY) ==>
      v.scroll + i < v.Count() &&
      Next(names, v, Click) ==
        v.(selected := v.scroll + i, launched := Some(v.filtered[v.scroll + i]), running := false)
    ensures (forall i: nat :: i < v.Rows() ==> !InBand(i, v.pointerY)) ==> Next(names, v, Click) == v
  {
    hide Filtered, InBand, RowAt;
    RowAtInvertsBands(v, y);
    RowAtInvertsBands(v, v.pointerY);
  }

  /** `r` has the query `query`, the entries ranked for it, and the first one selected. */
  ghost predicate Asks(names: seq<Name>, v: View, r: View, query: Text) {
    && r == v.(query := query, filtered := r.filtered, selected := 0, scroll := 0)
    && Ranked(names, query, r.filtered)
  }

  lemma RefilteredAsks(names: seq<Name>, v: View, query: Text)
    ensures Asks(names, v, Refiltered(names, v, query), query)
  {
    FilteredRanked(names, query);
  }

  /** Typing appends to the query as long as there is room, BackSpace takes its last byte, and either way the
      list is ranked anew; Escape only quits. */
  lemma TypingAsks(names: seq<Name>, v: View, bytes: Text)
    requires OnScreen(v)
    ensures if 0 < |bytes| < MAX_QUERY - 1 - |v.query| then Asks(names, v, Next(names, v, Typed(bytes)), v.query + bytes)
            else Next(names, v, Typed(bytes)) == v
    ensures if |v.query| > 0 then Asks(names, v, Next(names, v, BackSpace), v.query[..|v.query| - 1])
            else Next(names, v, BackSpace) == v
    ensures Next(names, v, Escape) == v.(running := false)
  {
    hide Refiltered, Asks;
    RefilteredAsks(names, v, v.query + bytes);
    if |v.query| > 0 {
      RefilteredAsks(names, v, v.query[..|v.query| - 1]);
    }
  }

  /** So `k` presses of Down from the first entry select entry `k`, and the list ends at the last one. */
  lemma {:induction false} DownTo(names: seq<Name>, v: View, k: nat)
    requires OnScreen(v) && v.selected >= 0 && v.selected + k < v.Count()
    ensures var r := AfterInputs(names, v, seq(k, _ => Down));
      r.selected == v.selected + k && r.filtered == v.filtered && r.query == v.query && r.launched == v.launched
    decreases k
  {
    if k > 0 {
      var es: seq<Input> := seq(k, _ => Down);
      assert es[1..] == seq(k - 1, _ => Down);
      KeysSelect(names, v);
      hide Next;
      DownTo(names, Next(names, v, Down), k - 1);
    }
  }

  // ---------------------------------------------------------------- the scrollbar

  /** Top and height of the scrollbar's thumb, drawn when not everything fits. */
  function Thumb(v: View): (r: (int, int))
    requires v.Count() > VISIBLE_ROWS
  {
    var track := v.Height() - ITEM_HEIGHT;
    var h := track * VISIBLE_ROWS / v.Count();
    var thumb := if h < 20 then 20 else h;
    (ITEM_HEIGHT + (track - thumb) * v.scroll / (v.Count() - VISIBLE_ROWS), thumb)
  }

  /** A proportion of `a`. */
  lemma ShareOf(a: nat, b: nat, c: nat)
    requires b <= c && c > 0
    ensures 0 <= a * b / c <= a
    ensures b == 0 ==> a * b / c == 0
    ensures b == c ==> a * b / c == a
  {
    MulMono(b, c, a);
    DivMono(a * b, a * c, c);
    DivUnique(a * c, c, a);
  }

  /** The thumb stays inside its track, starts at its top and reaches its bottom at full scroll. */
  lemma ThumbInTrack(v: View)
    requires OnScreen(v) && v.Count() > VISIBLE_ROWS
    ensures var (y, h) := Thumb(v);
      && h >= 20 && ITEM_HEIGHT <= y && y + h <= v.Height()
      && (v.scroll == 0 ==> y == ITEM_HEIGHT)
      && (v.scroll == v.Count() - VISIBLE_ROWS ==> y + h == v.Height())
  {
    var track := v.Height() - ITEM_HEIGHT;
    ShareOf(track, VISIBLE_ROWS, v.Count());
    var (y, h) := Thumb(v);
    ShareOf(track - h, v.scroll, v.Count() - VISIBLE_ROWS);
  }

  /** Scrolling down never moves the thumb up. */
  lemma ThumbMonotone(v: View, w: View)
    requires OnScreen(v) && OnScreen(w) && v.filtered == w.filtered && v.Count() > VISIBLE_ROWS && v.scroll <= w.scroll
    ensures Thumb(v).0 <= Thumb(w).0
  {
    var track := v.Height() - ITEM_HEIGHT;
    ShareOf(track, VISIBLE_ROWS, v.Count());
    var room := track - Thumb(v).1;
    MulMono(v.scroll, w.scroll, room);
    DivMono(room * v.scroll, room * w.scroll, v.Count() - VISIBLE_ROWS);
  }

  // ---------------------------------------------------------------- the program's own state

  /** What the second pass has listed before it looks at entry `i`. */
  function ListedAt(names: seq<Name>, query: Text, i: nat): seq<nat>
    requires i <= |names|
  {
    Prefixed(names, query, |names|) + Inner(names, query, i)
  }

  lemma ListedStarts(names: seq<Name>, query: Text)
    ensures ListedAt(names, query, 0) == Prefixed(names, query, |names|)
  {
  }

  lemma ListedEnds(names: seq<Name>, query: Text)
    ensures ListedAt(names, query, |names|) == Prefixed(names, query, |names|) + Inner(names, query, |names|)
  {
  }

  lemma {:induction false} InnerGrows(names: seq<Name>, query: Text, i: nat, n: nat)
    requires i <= n <= |names|
    ensures |Inner(names, query, i)| <= |Inner(names, query, n)|
  {
    hide IsPrefix, Contains, Prefixed, Ascending;
    if i < n {
      InnerGrows(names, query, i, n - 1);
    }
  }

  /** During the second pass the entries listed already that could be `i` are the prefix matches. */
  lemma AlreadyListed(names: seq<Name>, query: Text, i: nat)
    requires i < |names|
    ensures i in Prefixed(names, query, |names|) + Inner(names, query, i) <==> IsPrefix(names[i], query)
  {
    hide MatchesAt, Contains, Prefixed, Inner;
  }

  /** The only way entry `i` can be listed already is as a prefix match, and there is always room for it. */
  lemma ListedStep(names: seq<Name>, query: Text, i: nat)
    requires i < |names|
    ensures var listed := ListedAt(names, query, i);
      && ListedAt(names, query, i + 1) ==
           (if i !in listed && Contains(names[i], query) then listed + [i] else listed)
      && |ListedAt(names, query, i + 1)| <= |names|
  {
    hide MatchesAt, Contains, Prefixed, Ascending;
    InnerGrows(names, query, i + 1, |names|);
    AlreadyListed(names, query, i);
    var first := Prefixed(names, query, |names|);
    assert first + (Inner(names, query, i) + [i]) == (first + Inner(names, query, i)) + [i];
  }

  class App {
    const names: seq<Name>
    var query: Text
    const filtered: array<nat>
    var filteredCount: nat
    var selected: int
    var scroll: int
    var pointerY: real
    var launched: Option<nat>
    var running: bool

    ghost function Shown(): View
      reads this, filtered
      requires filteredCount <= filtered.Length
    {
      View(query, filtered[..filteredCount], selected, scroll, pointerY, launched, running)
    }

    ghost predicate Valid()
      reads this, filtered
    {
      && filtered.Length == MAX_ENTRIES && |names| <= MAX_ENTRIES && filteredCount <= filtered.Length
      && Ok(names, Shown())
    }

    constructor (names: seq<Name>)
      requires |names| <= MAX_ENTRIES
      ensures this.names == names && Valid() && fresh(filtered)
    {
      this.names := names;
      filtered := new nat[MAX_ENTRIES](_ => 0);
      query, pointerY, launched, running := [], 0.0, None, true;
      filteredCount, selected, scroll := 0, 0, 0;
      new;
      FilterEntries();
      FilteredRanked(names, query);
    }

    method Push(i: nat)
      requires filteredCount < filtered.Length
      modifies this`filteredCount, filtered
      ensures filteredCount == old(filteredCount) + 1 && filtered[..filteredCount] == old(filtered[..filteredCount]) + [i]
    {
      filtered[filteredCount] := i;
      filteredCount := filteredCount + 1;
    }

    method PushAll()
      requires filtered.Length == MAX_ENTRIES && |names| <= MAX_ENTRIES && filteredCount == 0
      modifies this`filteredCount, filtered
      ensures filteredCount <= filtered.Length && filtered[..filteredCount] == seq(|names|, k => k)
    {
      for i := 0 to |names|
        invariant filteredCount == i && filtered[..i] == seq(i, k => k)
      {
        Push(i);
      }
    }

    method PushPrefixed()
      requires filtered.Length == MAX_ENTRIES && |names| <= MAX_ENTRIES && filteredCount == 0
      modifies this`filteredCount, filtered
      ensures filteredCount <= filtered.Length && filtered[..filteredCount] == Prefixed(names, query, |names|)
    {
      hide MatchesAt;
      for i := 0 to |names|
        invariant filteredCount <= i && filtered[..filteredCount] == Prefixed(names, query, i)
      {
        if IsPrefix(names[i], query) {
          Push(i);
        }
      }
    }

    method IsListed(i: nat) returns (already: bool)
      requires filteredCount <= filtered.Length
      ensures already <==> i in filtered[..filteredCount]
    {
      already := false;
      var j := 0;
      while j < filteredCount
        invariant j <= filteredCount && !already && i !in filtered[..j]
      {
        if filtered[j] == i {
          already := true;
          break;
        }
        j := j + 1;
      }
    }

    method PushInner()
      requires filtered.Length == MAX_ENTRIES && |names| <= MAX_ENTRIES && filteredCount <= filtered.Length
      requires filtered[..filteredCount] == Prefixed(names, query, |names|)
      modifies this`filteredCount, filtered
      ensures filteredCount <= filtered.Length
      ensures filtered[..filteredCount] == Prefixed(names, query, |names|) + Inner(names, query, |names|)
    {
      hide MatchesAt, Contains, ListedAt;
      ListedStarts(names, query);
      for i := 0 to |names|
        invariant filteredCount <= filtered.Length && filtered[..filteredCount] == ListedAt(names, query, i)
      {
        ListedStep(names, query, i);
        var already := IsListed(i);
        if !already && Contains(names[i], query) {
          Push(i);
        }
      }
      ListedEnds(names, query);
    }

    /** `filter_entries`; the array never overflows. */
    method FilterEntries()
      requires filtered.Length == MAX_ENTRIES && |names| <= MAX_ENTRIES
      modifies this`filteredCount, this`selected, this`scroll, filtered
      ensures filteredCount <= filtered.Length && filtered[..filteredCount] == Filtered(names, query)
      ensures selected == 0 && scroll == 0
    {
      filteredCount := 0;
      selected := 0;
      scroll := 0;
      if |query| == 0 {
        PushAll();
        return;
      }
      PushPrefixed();
      PushInner();
    }

    /** `launch_selected`; starting the command itself is not modelled. */
    method LaunchSelected()
      requires filteredCount <= filtered.Length && (filteredCount > 0 ==> 0 <= selected < filteredCount)
      modifies this`launched, this`running
      ensures Shown() == Launched(old(Shown()))
    {
      if filteredCount == 0 {
        return;
      }
      launched := Some(filtered[selected]);
      running := false;
    }

    method SelectUp(to: int)
      requires filteredCount <= filtered.Length
      modifies this`selected, this`scroll
      ensures Shown() == SelectedUp(old(Shown()), to)
    {
      selected := to;
      if selected < scroll {
        scroll := selected;
      }
    }

    method SelectDown(to: int)
      requires filteredCount <= filtered.Length
      modifies this`selected, this`scroll
      ensures Shown() == SelectedDown(old(Shown()), to)
    {
      selected := to;
      if selected >= scroll + VISIBLE_ROWS {
        scroll := selected - VISIBLE_ROWS + 1;
      }
    }

    method SetQuery(bytes: Text)
      requires filtered.Length == MAX_ENTRIES && |names| <= MAX_ENTRIES && filteredCount <= filtered.Length
      modifies this`query, this`filteredCount, this`selected, this`scroll, filtered
      ensures filteredCount <= filtered.Length && Shown() == Refiltered(names, old(Shown()), bytes)
    {
      hide Filtered;
      query := bytes;
      FilterEntries();
    }

    /** `handle_key`, for a pressed key. */
    method HandleKey(e: Input)
      requires Valid() && !e.Motion? && !e.Click? && !e.Wheel?
      modifies this, filtered
      ensures Valid() && Shown() == Next(names, old(Shown()), e)
    {
      NextKeeps(names, Shown(), e);
      assert OnScreen(Shown());
      hide Ok, Filtered, OnScreen;
      match e {
        case Escape => running := false;
        case Return =>
          assert filteredCount > 0 ==> 0 <= selected < filteredCount by { InRange(Shown()); }
          LaunchSelected();
        case BackSpace =>
          if |query| > 0 {
            SetQuery(query[..|query| - 1]);
          }
        case Up =>
          if selected > 0 {
            SelectUp(selected - 1);
          }
        case Down =>
          if selected < filteredCount - 1 {
            SelectDown(selected + 1);
          }
        case PageUp =>
          var to := selected - VISIBLE_ROWS;
          if to < 0 {
            to := 0;
          }
          SelectUp(to);
        case PageDown =>
          var to := selected + VISIBLE_ROWS;
          if to >= filteredCount {
            to := filteredCount - 1;
          }
          SelectDown(to);
        case Typed(bytes) =>
          if |bytes| > 0 && |query| + |bytes| < MAX_QUERY - 1 {
            SetQuery(query + bytes);
          }
      }
    }

    /** `row_at`. */
    method RowUnder(y: real) returns (idx: int)
      requires filteredCount <= filtered.Length
      ensures idx == RowAt(Shown(), y)
    {
      if y < ITEM_HEIGHT as real {
        return -1;
      }
      var row := ((y - ITEM_HEIGHT as real) / ITEM_HEIGHT as real).Floor;
      idx := scroll + row;
      if row < 0 || idx >= filteredCount {
        return -1;
      }
      var rows := if filteredCount < VISIBLE_ROWS then filteredCount else VISIBLE_ROWS;
      if row >= rows {
        return -1;
      }
    }

    /** `ptr_motion`. */
    method PtrMotion(y: real)
      requires Valid()
      modifies this`pointerY, this`selected
      ensures Valid() && Shown() == Next(names, old(Shown()), Motion(y))
    {
      NextKeeps(names, Shown(), Motion(y));
      hide Ok, Filtered, OnScreen, RowAt;
      pointerY := y;
      var idx := RowUnder(pointerY);
      if idx >= 0 && idx != selected {
        selected := idx;
      }
    }

    /** `ptr_button`, for a press of the left button. */
    method PtrButton()
      requires Valid()
      modifies this`selected, this`launched, this`running
      ensures Valid() && Shown() == Next(names, old(Shown()), Click)
    {
      NextKeeps(names, Shown(), Click);
      RowAtInvertsBands(Shown(), pointerY);
      assert OnScreen(Shown());
      var idx := RowUnder(pointerY);
      if idx < 0 {
        return;
      }
      selected := idx;
      LaunchSelected();
    }

    /** `ptr_axis`, for the vertical axis. */
    method PtrAxis(value: real)
      requires Valid()
      modifies this`selected, this`scroll
      ensures Valid() && Shown() == Next(names, old(Shown()), Wheel(value))
    {
      NextKeeps(names, Shown(), Wheel(value));
      hide Ok, Filtered, OnScreen;
      if value > 0.0 && selected < filteredCount - 1 {
        SelectDown(selected + 1);
      } else if value < 0.0 && selected > 0 {
        SelectUp(selected - 1);
      }
    }

    /** The rows `render` draws: entry, top edge, and whether it is highlighted. */
    method DrawRows() returns (drawn: seq<(nat, int, bool)>)
      requires Valid()
      ensures |drawn| == Shown().Rows()
      ensures forall i :: 0 <= i < |drawn| ==>
        drawn[i] == (filtered[scroll + i], ITEM_HEIGHT + i * ITEM_HEIGHT, scroll + i == selected)
      ensures filteredCount > 0 ==> exists i :: 0 <= i < |drawn| && drawn[i].2
    {
      var rows := if filteredCount < VISIBLE_ROWS then filteredCount else VISIBLE_ROWS;
      assert OnScreen(Shown());
      drawn := [];
      for i := 0 to rows
        invariant |drawn| == i
        invariant forall k :: 0 <= k < i ==>
          scroll + k < filteredCount &&
          drawn[k] == (filtered[scroll + k], ITEM_HEIGHT + k * ITEM_HEIGHT, scroll + k == selected)
      {
        var idx := scroll + i;
        if idx >= filteredCount {
          break;
        }
        drawn := drawn + [(filtered[idx], ITEM_HEIGHT + i * ITEM_HEIGHT, idx == selected)];
      }
      assert filteredCount > 0 ==> drawn[selected - scroll].2;
    }
  }
}
