# Verified model of kumde

A Dafny model of kumde, a Wayland compositor on wlroots, and of the small programs around it, with
proofs of the properties their code is for. `dafny verify dfyconfig.toml` checks everything.

## What is modelled

**The compositor's workspaces, outputs and focus.** Nine workspaces are shared by a changing set of
outputs. `State.dfy` (module `Compositor`) holds the server's state as a value and, for each handler, the
function from the state before it to the state after it; each of these functions carries in its contract
the invariants the handler keeps. `Server.dfy` is the program itself: a class with the server's fields and
one method per C function, with the C code's loops, early returns and order of assignments, each proved to
end in exactly the state its function says. `Server.KumServer.Run` drives all of them from one event list.
`Events.dfy` has the event list, the invariants over every run of it, output hotplug and the session lock.
`Tiling.dfy` is the master/stack arithmetic, `Placement.dfy` what arranging, swapping and moving do to
windows on screen, `Outcomes.dfy` where the focus goes and which handlers leave a workspace laid out,
`Tidiness.dfy` which events keep all shown workspaces laid out, over whole runs, `Effects.dfy` what each
handler does to outputs, windows and the focus, and `Cycling.dfy` the fairness of cycling the focus.

wlroots is reduced to plain fields: a scene node's position, size and enabled flag, a surface's mapped
flag, and the seat's focused surface. A `wl_list` is a sequence, insertion at its head is prepending.
Windows are records in a table indexed by identity, outputs are known by their place in the list, and the
output under the cursor is a parameter. xdg toplevels and X11 windows share one record with a kind.

**kumbar** (`Kumbar.dfy`): the 511-byte reassembly buffer. **kumlauncher** (`Launcher.dfy`): filtering,
selection, scrolling, hit testing and the scrollbar. **The JSON escaper** (`JsonEscape.dfy`), against a
decoder for section 7 of RFC 8259. **kumnotify** (`Notify.dfy`): the eight slots, eviction, stacking,
expiry and the poll timeout; `Notify.Notifier.Run` drives it. **Animations** (`Easing.dfy`), over real
numbers. **kumde.conf** (`Config.dfy`, `Text.dfy`): both of its readers. **kumde-msg and the IPC
commands** (`Wire.dfy`).

## What came out

- Over every run of events with at most nine outputs connected, no two outputs show the same workspace and
  exactly the shown workspaces are enabled. Connecting an output keeps this **if and only if** fewer than
  nine are connected before.
- Focus cycling is fair **if and only if** the seat does not already point at the window that is next in
  line. That can happen: unplug the keyboard, click the other of two windows, plug the keyboard in; from
  then on the key does nothing. `Cycling.StuckFromBoot` is such a run from the compositor's start. With a
  keyboard throughout and new windows on new surfaces it never happens (`Cycling.FairOverRuns`).
- Tiled windows fit their area **if and only if** it is large enough, and then are a full gap apart.
- Swapping two outputs' workspaces keeps every window's place relative to the output that shows it,
  switching back restores everything, and between outputs of equal size the swap commutes with arranging.
- Every output that shows a tiled workspace shows it laid out, over every run of events other than those
  after which the code does not lay out again. `Tidiness.Smooth` lists these: among them are showing a hidden
  tiled workspace, connecting an output to one, resizing while two are shown, and mapping a window whose rule
  floats it or sets its size or position.
- A window moved to a hidden workspace stays invisible when that workspace is shown: its own node was disabled,
  and showing a workspace enables only the workspace's tree (`Effects.MovedStaysHidden`).
- A session that starts unlocked ends locked **if and only if** some granted lock never unlocked. While it is
  locked no window gets the seat's focus, except **exactly** one that arrives on the surface that has it.
- Toggling the scratchpad twice restores the output's workspace **if and only if** that was workspace 0 or
  the scratchpad itself; swapping the master never changes the master.
- An opening or closing animation changes the node's enabled flag at most once, however the frames fall,
  **if and only if** the node starts hidden before opening, shown before closing. From the other flag a
  frame at its start and one at its end flip it twice (`Easing.FlipsTwice`).
- The JSON escaper loses nothing that can be written **if and only if** every such character finds three
  free bytes; twice the length plus one always suffices and nothing less does.
- kumbar's messages do not depend on how the stream is chunked, as long as each read fits the room left in
  the buffer. A connection is deaf, so that no message gets through until kumbar reconnects, **if and only
  if** its buffer is full without a newline or has a NUL in it (`Kumbar.DeafExactly`).
- A NUL typed into kumlauncher's query, as Ctrl+Space does, keeps the entries listed and changes their order:
  entries that merely start with the text no longer come first (`Launcher.NulReorders`).
- A launch command survives the wire **if and only if** it has 1 to 255 bytes and no quote or newline.
- In `[rules]`, README.md of kumde says the first matching rule wins. Rules are prepended, so the last one
  in the file does (`Config.LastMatchWins`), and the first one wins **if and only if** no later one matches
  (`Config.FirstMatchWinsIff`); with one rule for a window's application and a second one for its title the
  first loses (`Config.FirstMatchLoses`). A rule's `pos:x,y` loses its second number, because the comma
  already ends the token, so every rule's vertical position is 0 (`Config.PosLosesY`). In `[output]`, any
  later key switches an output back on after `enabled = false` (`Config.EnabledByLast`).

## Model

| member | source | states |
|---|---|---|
| Tiling.TilesFit | src/workspace.c:50-97 | for any number of windows, every rectangle is inside the area inset by the gap exactly when the area is large enough |
| Tiling.TilesApart | src/workspace.c:71-97 | in a large enough area any two rectangles are separated by at least the gap |
| Tiling.TilesFill | src/workspace.c:66-92 | columns and gaps add up exactly to the area's width, and the stack leaves fewer unused rows than it has windows |
| Tiling.MasterBounds | src/workspace.c:66-69 | the truncated master width stays between zero and the width available, on either side of zero |
| Tiling.MasterShare | src/workspace.c:65-69 | in an area wide enough the first of several rectangles has the ratio's share of the columns' width, rounded down |
| Tiling.MasterGrows | src/workspace.c:65-69 | and it never gets narrower as the ratio grows |
| Tiling.TilesInPlace | src/workspace.c:71-97 | the master is at the left over the whole height, the others one gap to its right, of equal size, each one gap below the one before |
| Tiling.MonocleFits | src/workspace.c:339-360 | the monocle rectangle leaves exactly one gap on every side |
| Compositor.OutputFor | src/workspace.c:18-27 | the first output showing a workspace, or none exactly when no output shows it |
| Compositor.Place | src/workspace.c:71-97 | the i-th managed window gets the i-th rectangle, every other window is untouched |
| Compositor.NextFree | src/output.c:138-150 | the least workspace no output shows, or 0 when every one is shown |
| Compositor.DestroyToplevel | src/toplevel.c:225-242 | a destroyed window is gone, from the table and hence from every list and both focus pointers, and all invariants stay |
| Compositor.LeastSerial | src/keybind.c:15-36 | the mapped window focused longest ago, or none exactly when nothing is mapped |
| Events.Pigeonhole | src/output.c:138-150 | distinct numbers below n are all of them exactly when there are n |
| Events.FreeWorkspace | src/output.c:138-150 | a free workspace is found exactly while fewer than nine outputs show different ones |
| Events.ConnectExclusive | src/output.c:168-219 | a new output keeps displays exclusive exactly while fewer than nine are connected |
| Events.DisconnectExclusive | src/output.c:52-71 | after an unplug the first remaining output shows the migrated workspace and displays stay exclusive |
| Events.DeskKeeps | src/keybind.c:10-104 | every output, key and command event keeps the invariants |
| Events.WindowKeeps | src/toplevel.c:140-391 | every event of a window's life keeps the invariants |
| Events.StepKeeps | src/output.c:109-136 | every event of any kind keeps the central invariant |
| Events.RunKeeps | src/workspace.c:129-273 | so does every run: displays exclusive, windows linked once and in the right list, at most one focus pointer and that on a live mapped window |
| Events.RunAttentive | src/toplevel.c:98-113 | with a keyboard throughout, a window holding the seat's focus always has the latest serial |
| Events.RunLegal | src/tiling.c:43-55 | over any run the tiling parameters stay legal as long as the reloaded files are |
| Events.LockTransitions | src/sessionlock.c:81-161 | only the active lock's own unlock event unlocks, and only a request made with nothing locked and no lock active is granted |
| Events.StaysLocked | src/sessionlock.c:81-117 | until then every later state is locked, no other lock is granted, and focus pointers keep their value or are dropped |
| Events.RunBarred | src/sessionlock.c:119-161 | over every run whose new windows bring their own surfaces, no window has the seat's focus while the session is locked |
| Events.BarredExactly | src/toplevel.c:53-60 | while locked, a window gets the seat's focus exactly by arriving on the surface that has it |
| Events.OrphanedForever | src/sessionlock.c:100-117 | if the lock dies without unlocking, every later state is locked |
| Events.LockedExactly | src/sessionlock.c:81-161 | a run that starts unlocked ends locked exactly when some granted lock never unlocked |
| Cycling.FairUnlessStuck | src/keybind.c:10-45 | n presses focus each of n mapped windows exactly once and the order then repeats for ever, exactly when the seat is not already on the next window |
| Cycling.FairOverRuns | src/keybind.c:10-45 | after any run with a keyboard throughout and new surfaces for new windows, cycling is fair |
| Cycling.ReplugSticks | src/toplevel.c:109-113 | a run after which cycling is stuck: a click while no keyboard is plugged in |
| Cycling.StuckFromBoot | src/keybind.c:10-45 | the same from the compositor's start: a run of possible events that opens two windows and ends stuck |
| Cycling.StuckStays | src/xwayland.c:242-243 | a stuck press changes nothing, however often it is repeated |
| Cycling.Periodic | src/keybind.c:10-45 | from a start that is not stuck, focus repeats with the number of mapped windows as its period |
| Placement.ArrangedIsLaidOut | src/workspace.c:39-98 | arranging gives every managed window its rectangle |
| Placement.LaidOutIsFixed | src/workspace.c:39-98 | a workspace is laid out exactly when arranging it again changes nothing |
| Placement.TiledInOrder | src/workspace.c:54-59 | the windows a layout manages are the mapped, non-floating ones of the list, each once, in the order of the list |
| Placement.LaidOutTilesFit | src/workspace.c:50-97 | windows of a laid-out tiled workspace with room are inside their area and a full gap apart |
| Placement.LaidOutInPlace | src/workspace.c:50-97 | the same positions and the master's share for the windows of a laid-out workspace, in list order |
| Placement.LaidOutMonocle | src/workspace.c:339-360 | every managed window of a laid-out monocle workspace has the area but for one gap on every side |
| Placement.SwitchEffect | src/workspace.c:143-167 | what a switch does to outputs, lists and windows, whatever becomes of the focus |
| Placement.SwitchOutputs | src/workspace.c:140-170 | the output shows the workspace and remembers what it showed, one that showed it does the reverse, and no other output changes |
| Placement.KeyShows | src/keybind.c:82-91 | a workspace's key shows that workspace, or the one shown before if it is shown already |
| Placement.TranslateRigid | src/workspace.c:100-127 | moving a workspace's windows keeps their sizes and the distances between them, leaves all others alone, and moving back restores everything |
| Placement.SwapKeepsOffsets | src/workspace.c:105-158 | a swap keeps every visible window's offset from the output showing it and moves no hidden window |
| Placement.ShowMovesNothing | src/workspace.c:160-167 | switching to a hidden workspace moves no window |
| Placement.SwitchBack | src/workspace.c:129-170 | switching and switching back restores every active workspace, enabled flag and window rectangle |
| Placement.PressTwice | src/keybind.c:82-91 | pressing the key of a workspace that is not active shows it, and pressing it twice restores every active workspace and rectangle |
| Placement.SwapKeepsLayout | src/workspace.c:100-158 | between outputs of equal size, after a swap arranging either workspace on its new output changes nothing |
| Placement.MoveLaysOut | src/workspace.c:210-243 | a move leaves both workspaces laid out where shown, touches no third workspace, keeps the set of windows and links the window at the head of its new list |
| Outcomes.FocusEffect | src/toplevel.c:53-114 | the window becomes the focused one and heads the list, unless locked or already on the seat, and then nothing changes |
| Outcomes.SwitchLeavesFocus | src/workspace.c:172-181 | after a switch no focus pointer is on the workspace that was left |
| Outcomes.SwitchFocuses | src/workspace.c:183-203 | unlocked, a switch to a workspace with a mapped window puts the focus on it unless the seat is there already |
| Outcomes.ScratchpadTwice | src/workspace.c:320-337 | toggling twice restores the workspace shown exactly when that was workspace 0 or the scratchpad |
| Outcomes.SwapMasterEffect | src/tiling.c:14-24 | the head of the list never changes; if anything does, the focused window is at the tail |
| Outcomes.WindowHandlersNeat | src/toplevel.c:140-187 | mapping, unmapping or grabbing a tiled window ends with its workspace laid out where shown, and so does the workspace a rule sends it to, unless the rule changes its geometry |
| Outcomes.OutputHandlersLayOut | src/layer.c:59-62 | a new area or layout ends with the output's workspace laid out on it |
| Outcomes.MappedIsCentred | src/toplevel.c:116-128 | a window that is not tiled is centred on its output to within a pixel |
| Outcomes.ResizeEffect | src/tiling.c:36-62 | the ratio moves by a 2000th per pixel between a tenth and nine tenths, and the workspace is laid out again |
| Effects.TargetIsForemost | src/workspace.c:183-203 | a workspace hands the focus to the foremost mapped window of its list, and to an X11 window, the foremost again, only without one |
| Effects.PickIsFirst | src/keybind.c:12-36 | of several windows focused equally long ago cycling takes the first, xdg windows before X11 ones |
| Effects.SwitchToEmpty | src/workspace.c:172-203 | after a switch to a workspace without a mapped window the focus is nowhere if it was on the one left, and else where it was |
| Effects.MoveXEffect | src/workspace.c:276-298 | an X11 window changes its workspace, is disabled where no output shows that, loses the focus, and nothing else changes |
| Effects.KeyMoveEffect | src/keybind.c:93-104 | the move key moves the focused window of either kind and no other, and that one loses the focus |
| Effects.MoveReleases | src/workspace.c:239-273 | the focus of a moved window goes to a window left behind, if its old workspace is shown and has one, and else to none |
| Effects.MoveShows | src/workspace.c:228-234 | a moved window is disabled exactly where no output shows its new workspace |
| Effects.MovedStaysHidden | src/workspace.c:160-170 | showing that workspace afterwards does not enable the window again |
| Effects.ConnectEffect | src/output.c:168-219 | a new output heads the list with its area and a workspace no other shows, and nothing else on screen changes |
| Effects.DisconnectOutputs | src/output.c:52-71 | the first output left shows what the unplugged one showed, the others are unchanged |
| Effects.DisconnectFocuses | src/output.c:75-97 | and that workspace gets the focus if it has a mapped window |
| Effects.DisconnectLast | src/output.c:109-136 | without another output its workspace is disabled and the focus of an xdg window on it dropped |
| Effects.SetAreaEffect | src/layer.c:59-62 | a new area is one output's alone |
| Effects.ToggleLayoutTwice | src/workspace.c:301-318 | floating becomes tiled and any other layout floating; twice restores it exactly if it was not monocle |
| Effects.ToggleFloatingTwice | src/keybind.c:59-74 | on a tiled workspace the focused window's flag is turned round, and twice restores it; else nothing happens |
| Effects.GrabEffect | src/toplevel.c:244-252 | grabbing a window of a tiled workspace floats it and no other |
| Effects.ResizeFloating | src/tiling.c:55-63 | off tiled workspaces only the focused window's size changes, by the step asked for, down to 120 by 80 |
| Effects.NewEffect | src/toplevel.c:348-391 | a new window opens on the workspace under the cursor, or on workspace 0, at the head of both lists |
| Effects.NewXEffect | src/xwayland.c:319-364 | the same for an X11 window, which has no surface yet |
| Effects.AssociateEffect | src/xwayland.c:282-317 | an X11 window gains or loses its surface and nothing else changes |
| Effects.MapEffect | src/toplevel.c:140-165 | a mapped window is where it was or where its rule sends it, as the rule says, and has the focus unless locked |
| Effects.RuleEffect | src/rules.c:99-111 | what a rule does: workspace, floating, fullscreen, size if both numbers are positive, position if one is not 0 |
| Effects.UnmapEffect | src/toplevel.c:167-187 | an unmapped window loses its focus pointer, and others keep all but their rectangles on the same workspace |
| Effects.MapXEffect | src/xwayland.c:8-43 | an X11 window is shown, centred on the first output to within a pixel, and takes no focus |
| Effects.RuleXEffect | src/rules.c:128-143 | what a rule does to an X11 window: what it names, and otherwise what the client asked for |
| Effects.UnmapXEffect | src/xwayland.c:45-61 | its focus pointer is dropped and nothing else changes |
| Effects.LockEffects | src/sessionlock.c:81-161 | a granted request and an unlock both take the keyboard away; a lock that is gone is forgotten and leaves the session as it is |
| Effects.ReloadEffect | src/server.c:80-84 | a reload changes rectangles only, and those only on tiled workspaces that are shown |
| Effects.SwitchEventsDo | src/keybind.c:82-91 | what the output shows after a workspace key, a workspace command and the scratchpad key |
| Effects.MoveEventDoes | src/keybind.c:93-104 | after the move key the focused window is on the workspace named |
| Effects.JumpEventDoes | src/focus.c:32-56 | jumping to an output puts the focus on the workspace it shows |
| Effects.CycleEventDoes | src/keybind.c:10-45 | the cycling key focuses the window focused longest ago, unless locked or the seat is on it |
| Effects.XdgEventsDo | src/toplevel.c:140-391 | after the events of an xdg window's life it is there, mapped, unmapped and gone |
| Effects.X11EventsDo | src/xwayland.c:8-364 | the same for an X11 window and its surface |
| Effects.PointerEventsDo | src/toplevel.c:244-252 | clicks focus the window clicked, a grab on a tiled workspace floats it, a reshape gives it what it says |
| Tidiness.StepAligns | src/workspace.c:39-98 | every event but the ones listed in `Tidiness.Smooth` leaves each output that shows a tiled workspace with that workspace laid out on it |
| Tidiness.RunAligns | src/workspace.c:39-98 | and so does every run of such events |
| Tidiness.SwitchAligns | src/workspace.c:129-170 | a switch does if it shows a workspace that is not tiled, or exchanges workspaces between outputs of equal size |
| Tidiness.MapAligns | src/toplevel.c:140-165 | mapping does with any rule that leaves the window's geometry alone, floats what floats already, or sends it to a workspace that is not tiled |
| Tidiness.ReloadAligns | src/server.c:80-84 | a reload brings it about from any state |
| Server.KumServer.OutputForWorkspace | src/workspace.c:18-27 | the search loop finds the first output showing the workspace |
| Server.KumServer.CountManaged | src/workspace.c:54-59 | the counting pass counts the managed windows |
| Server.KumServer.Arrange | src/workspace.c:39-98 | floating, monocle and tile branch give every managed window its rectangle and leave everything else alone |
| Server.KumServer.TileManaged | src/workspace.c:71-97 | the placing loop gives the i-th managed window the i-th rectangle and touches nothing else |
| Server.KumServer.MonocleManaged | src/workspace.c:339-360 | every managed window gets the whole area inset by the gap |
| Server.KumServer.Translate | src/workspace.c:105-127 | the two loops shift exactly the windows of the workspace |
| Server.KumServer.FocusFirst | src/workspace.c:183-203 | the two search loops focus the first mapped xdg window, else the first mapped X11 window, of the workspace |
| Server.KumServer.LongestUnfocused | src/keybind.c:12-36 | the two scans find the mapped window with the least serial, the earliest on a tie |
| Server.KumServer.Switch | src/workspace.c:129-208 | guards, swap or show, dropped focus and focus search end in exactly the state `Compositor.Switch` gives |
| Server.KumServer.SwapWithOther | src/workspace.c:140-158 | the loop over the other outputs swaps with the one showing the workspace, if there is one |
| Server.KumServer.MoveToplevel | src/workspace.c:210-273 | guards, relinking, both layouts and the released focus end in exactly the state `Compositor.MoveToplevel` gives |
| Server.KumServer.NextFreeWorkspace | src/output.c:138-150 | the array of used workspaces yields the least free one |
| Server.KumServer.ReloadConfig | src/server.c:80-84 | the loop lays out every output's tiled workspace with the new parameters |
| Server.KumServer.Run | src/workspace.c:129-273 | running the handlers on any possible events ends in the state the run describes, with the invariant |
| Kumbar.CutAppend | kumbar/src/main.c:331-344 | cutting a longer text continues from what the shorter one left |
| Kumbar.Reassembly | kumbar/src/main.c:325-344 | however the stream is chunked, as long as each read fits, the messages are those of the whole stream |
| Kumbar.CutIsLines | kumbar/src/main.c:331-338 | the messages are the nonempty newline-terminated lines, the rest is what follows the last newline |
| Kumbar.ConcatSplits | kumbar/src/main.c:309-344 | from a fresh connection, both together, for any way of splitting the stream into lines and a tail |
| Kumbar.SplitsExist | kumbar/src/main.c:331-338 | every stream has such a splitting |
| Kumbar.DeafForever | kumbar/src/main.c:325-336 | once the buffer is full without a newline, or has a NUL in it, no message gets through on this connection |
| Kumbar.LongLineDeafens | kumbar/src/main.c:319-344 | reads without a newline or a NUL get a connection there exactly when they fill the buffer |
| Kumbar.LettersDeafen | kumbar/src/main.c:319-344 | one line of 511 letters, after which every further read is lost |
| Kumbar.DeafExactly | kumbar/src/main.c:309-344 | no stream of reads gets a message through exactly when the buffer is full without a newline or has a NUL in it |
| Kumbar.Bar.Connect | kumbar/src/main.c:235 | a new connection starts with an empty buffer |
| Kumbar.Bar.Dispatch | kumbar/src/main.c:309-344 | the messages handled and the text left in the buffer, for any read |
| Kumbar.Bar.Extract | kumbar/src/main.c:331-338 | the loop handles exactly the messages of the text and finds its remainder |
| Kumbar.Bar.FindNewlineFrom | kumbar/src/main.c:333 | the next newline before any NUL |
| Kumbar.Bar.Shift | kumbar/src/main.c:340-344 | the remainder ends up at the front of the buffer |
| Launcher.FilteredExactly | kumlauncher/src/main.c:278-302 | the result is the one list of exactly the entries containing the query, once each, prefix matches first, each group in entry order |
| Launcher.RankedUnique | kumlauncher/src/main.c:278-302 | any two such lists are equal |
| Launcher.NulKeepsEntries | kumlauncher/src/main.c:291-300 | a query with a NUL in it lists the entries its text before the NUL lists, and favours only those whose whole name is that text |
| Launcher.NulReorders | kumlauncher/src/main.c:291-300 | two entries whose order the NUL reverses |
| Launcher.RowAtInvertsBands | kumlauncher/src/main.c:582-595 | a row is hit exactly in the band it is drawn in, and nothing is hit elsewhere |
| Launcher.NextKeeps | kumlauncher/src/main.c:467-534 | every input keeps the selection on screen and the scroll within bounds |
| Launcher.InputsKeep | kumlauncher/src/main.c:467-641 | so does every run of inputs |
| Launcher.KeysSelect | kumlauncher/src/main.c:489-518 | Down, Up, Page Down and Page Up select the entry one or ten on or back, within the list, and scroll only as far as it takes |
| Launcher.WheelSelects | kumlauncher/src/main.c:625-641 | a wheel step down is Down, one up is Up, and one of 0 nothing |
| Launcher.PointerSelects | kumlauncher/src/main.c:604-624 | the pointer selects exactly the row in whose band it is, and a click launches that row's entry |
| Launcher.TypingAsks | kumlauncher/src/main.c:483-532 | typing appends to the query while there is room, BackSpace takes its last byte, and the list is ranked anew |
| Launcher.DownTo | kumlauncher/src/main.c:498-504 | k presses of Down select the entry k further on |
| Launcher.LaunchesWhatIsShown | kumlauncher/src/main.c:304-319 | something is launched exactly by Return on a nonempty list or a click on a row, and it is the highlighted entry |
| Launcher.ThumbInTrack | kumlauncher/src/main.c:443-449 | the scrollbar's thumb stays in its track, starts at its top and reaches its bottom at full scroll |
| Launcher.ThumbMonotone | kumlauncher/src/main.c:443-449 | scrolling down never moves the thumb up |
| Launcher.App.FilterEntries | kumlauncher/src/main.c:278-302 | the passes fill the array with exactly that result and never overflow it |
| Launcher.App.HandleKey | kumlauncher/src/main.c:467-534 | each key ends in exactly the next view, and the invariant holds |
| Launcher.App.RowUnder | kumlauncher/src/main.c:582-595 | the row under the pointer |
| Launcher.App.PtrMotion | kumlauncher/src/main.c:604-613 | ends in exactly the next view |
| Launcher.App.PtrButton | kumlauncher/src/main.c:614-624 | ends in exactly the next view |
| Launcher.App.PtrAxis | kumlauncher/src/main.c:625-641 | ends in exactly the next view |
| Launcher.App.DrawRows | kumlauncher/src/main.c:406-440 | every visible row is drawn in its band and the selected one is highlighted |
| JsonEscape.RoundTrip | src/jsonutil.c:8-22 | decoding undoes encoding for every byte but the control characters other than tab, newline and return, which are left out |
| JsonEscape.DecodedOne | src/jsonutil.c:10-22 | one character: it decodes to itself and takes two bytes only if a JSON string cannot hold it as it is |
| JsonEscape.OutputDecodes | src/jsonutil.c:3-25 | for any size the output leaves room for its terminator and decodes to the writable characters of a prefix |
| JsonEscape.CompleteIffFits | src/jsonutil.c:9-22 | nothing that can be written is lost exactly when each such character finds three free bytes |
| JsonEscape.TwiceIsEnough | src/jsonutil.c:9-22 | twice the length plus one is always enough |
| JsonEscape.NothingLessIsEnough | src/jsonutil.c:9-22 | nothing less is enough for every source of that length |
| JsonEscape.Escape | src/jsonutil.c:3-25 | the buffer holds exactly that output and its terminator, and no byte behind them is written |
| Notify.RestackedIsStacked | kumnotify/src/main.c:138-147 | restacking puts the highest active slot one gap below the edge and each next one exactly one gap further |
| Notify.StackedApart | kumnotify/src/main.c:138-147 | any two bubbles are disjoint, at least a gap apart |
| Notify.ShowEffect | kumnotify/src/main.c:225-254 | no other bubble is lost unless all slots are taken, and then exactly one expiring first |
| Notify.SweepEffect | kumnotify/src/main.c:354-357 | the expiry pass removes exactly the expired bubbles |
| Notify.RunKeeps | kumnotify/src/main.c:138-254 | over every run at most eight bubbles, exactly stacked, on surfaces of their own |
| Notify.PassClears | kumnotify/src/main.c:354-357 | after a pass of the main loop a bubble is there exactly if it was and had time left |
| Notify.PressDismisses | kumnotify/src/main.c:171-183 | a press puts away the bubble under the pointer and no other |
| Notify.PressMisses | kumnotify/src/main.c:171-183 | where there is no bubble under the pointer a press does nothing |
| Notify.ClosedGoes | kumnotify/src/main.c:220 | a bubble whose surface is closed goes, and no other |
| Notify.NoticeEffect | kumnotify/src/main.c:225-254 | a notification gets a bubble on its surface, with a number of its own, and no other changes but in the slot it takes |
| Notify.NoticeLasts | kumnotify/src/main.c:240-357 | its bubble stays for the timeout asked for, or five seconds |
| Notify.Notifier.Restack | kumnotify/src/main.c:138-147 | the loop sets exactly those margins |
| Notify.Notifier.Dismiss | kumnotify/src/main.c:149-157 | ends in exactly the dismissed state |
| Notify.Notifier.FindSlot | kumnotify/src/main.c:228-233 | the first free slot, or the first of those expiring first |
| Notify.Notifier.Show | kumnotify/src/main.c:225-254 | ends in exactly the state with the new bubble |
| Notify.Notifier.PtrButton | kumnotify/src/main.c:171-183 | the first bubble on the pointer's surface is dismissed |
| Notify.Notifier.Expire | kumnotify/src/main.c:354-357 | ends in exactly the swept state |
| Notify.Notifier.PollTimeout | kumnotify/src/main.c:334-340 | sleeps for ever exactly without bubbles, else until the first one expires, and the result fits an int |
| Notify.Notifier.Run | kumnotify/src/main.c:333-358 | handling any possible events ends in the tray the run describes, with at most eight stacked bubbles and every expiry in range |
| Easing.OutBackBounds | src/easing.c:22-28 | the opening curve stays between 0 and 1.1001 |
| Easing.OutBackStaysAbove | src/easing.c:22-28 | once past a value below 1 it stays past it |
| Easing.CubicsRise | src/easing.c:3-12 | the closing and focusing curves rise from 0 to 1 without turning back |
| Easing.InOutRises | src/easing.c:14-20 | the curve in both directions rises from 0 to 1 and is symmetric |
| Easing.CurvesMirror | src/easing.c:3-20 | the focusing curve is the closing one turned round, which is cubic, and the curve in both directions is made of two halves of it |
| Easing.CurveOfKind | src/easing.c:62-68 | a closing animation is behind the clock, a focusing one ahead of it, and an opening one goes past its target by a tenth |
| Easing.HalfTime | src/easing.c:51-70 | where each kind of animation stands after half its duration |
| Easing.FinishesExactly | src/easing.c:51-71 | over any frames an animation is finished exactly once its duration has passed, and then stands at its target |
| Easing.NeverTurnsBack | src/easing.c:63-70 | closing and focusing move from one end to the other without turning back |
| Easing.OpeningBounds | src/easing.c:51-71 | an opening from 0 to 1 stays between 0 and 1.1001 |
| Easing.FrameShows | src/output.c:13-23 | a frame of an opening or closing animation shows the node exactly above a twentieth; of any other it leaves the flag alone |
| Easing.AtMostOneFlipIff | src/output.c:13-23 | one opening or closing changes the enabled flag at most once, for all frame times, exactly when the flag starts opposite to where it ends |
| Easing.FlipsTwice | src/output.c:13-23 | two frames that flip it twice otherwise |
| Easing.TickAnimations | src/output.c:6-31 | the loop draws exactly that frame for every window |
| Easing.KumAnimation.Start | src/easing.c:39-49 | the animation starts at its origin |
| Easing.KumAnimation.Tick | src/easing.c:51-71 | the animation stands where the clock says |
| Config.SectionsAgree | src/conf.c:132-150 | both readers agree for every file on where rules sections begin and end |
| Config.ReadersIndependent | src/rules.c:38-52 | neither reader depends on anything meant for the other |
| Config.LoadedReflects | src/conf.c:132-166 | the configuration is what the file's sections say, with the first 16 autostart values and the first 8 output sections |
| Config.EnabledByLast | src/conf.c:105-121 | an output is enabled exactly when it has an assignment and the last one is not `enabled` with another value than true, 1 or yes |
| Config.OffThenOn | src/conf.c:105-121 | an output switched off by `enabled = false` is on again after any other key of its section |
| Config.LastMatchWins | src/rules.c:78-81 | the rule selected is the last one in the file that matches |
| Config.FirstMatchWinsIff | src/rules.c:78-98 | the first matching rule of the file is the one selected exactly when no later one matches |
| Config.FirstMatchLoses | src/rules.c:78-98 | two rules that both match a window, of which the second is selected |
| Config.PosLosesY | src/rules.c:59-77 | every rule loaded has 0 as its vertical position |
| Config.PosDropsY | src/rules.c:59-77 | of `pos:x,y`, for all x and y, the rule keeps x and has 0 instead of y |
| Config.WorkspaceToken | src/rules.c:69 | `workspace:n` stands for index n - 1 |
| Config.FlagTokens | src/rules.c:70-71 | `floating` and `fullscreen` are switched on by `true` and off by anything else |
| Config.SizeToken | src/rules.c:72 | `size:wxh` keeps both numbers |
| Config.PatternNeeded | src/rules.c:78-81 | a rule that names neither an application nor a title is dropped |
| Config.AssignParsed | src/conf.c:132-157 | `key = value`, however indented, assigns the value to the key |
| Config.HeaderParsed | src/conf.c:132-150 | a line in brackets is a header, one that starts with `#` says nothing |
| Config.OutputNamed | src/conf.c:138-146 | `[output NAME]` is the section of the output of that name |
| Config.PiecesJoin | src/conf.c:128-132 | reading in pieces of at most 511 bytes loses nothing |
| Config.Trim | src/conf.c:47-54 | the two loops strip exactly the white space at both ends |
| Config.Look | src/conf.c:132-157 | how one piece is classified and split |
| Config.LoadConfig | src/conf.c:123-171 | the loop reads exactly the configuration described |
| Config.LoadRules | src/rules.c:31-84 | the loop reads exactly the rules described |
| Config.ReadToken | src/rules.c:61-76 | one token sets the field its key names, and nothing without a colon |
| Config.ReadRule | src/rules.c:58-77 | the token loop builds the rule |
| Config.SelectRule | src/rules.c:94-98 | the first rule of the list that matches, or none exactly when none does |
| Text.TrimmedExactly | src/conf.c:47-54 | trimming takes away the white space at both ends and nothing else |
| Text.NumberRoundTrip | tools/kumde-msg.c:123-126 | a printed number is read back unchanged, whatever follows it |
| Text.PairRoundTrip | src/rules.c:72 | two numbers with a separator are read back |
| Wire.IndexSurvives | src/ipc.c:75-84 | workspace n and move-to n reach the compositor as n - 1 exactly when n is 1 to 9 |
| Wire.LaunchSurvives | src/ipc.c:132-144 | a command line is launched unchanged exactly when it has 1 to 255 bytes and no quote or newline |
| Wire.SimpleSurvives | src/ipc.c:101-150 | close, quit and reload reach the compositor as what they are |
| Wire.LayoutSurvives | src/ipc.c:113-131 | a layout mode reaches it up to 15 bytes |
| Wire.ModesSurvive | tools/kumde-msg.c:17 | the three modes kumde-msg documents select the layouts they name |
| Wire.WordsSplit | tools/kumde-msg.c:113-121 | splitting the joined command line at its spaces gives the arguments back |
| Wire.BuildExec | tools/kumde-msg.c:113-121 | the loop joins the arguments with spaces and keeps the first 399 bytes |
| Wire.HandleReadable | src/ipc.c:164-194 | the in-place splitting yields the commands of the nonempty lines, the last with or without a newline |

The handlers of `Server.KumServer` that have no row, from `FocusToplevel` to the session lock, have the same
kind of contract as those that do: each ends in exactly the state of the function of `Compositor` it is
named after, which carries the invariants, and `Server.KumServer.Run` calls all of them.

## Left out

- wlroots, Wayland, rendering, stacking order, borders, shadows, the activation flag sent to clients, and the messages broadcast to IPC clients: not part of this model.
- Interactive moving and resizing, leaving fullscreen, and fullscreen or maximising asked for by a client: one event that gives a window any geometry, any visibility and any fullscreen flag stands for all of them, and for the frames that show or hide an animated window. The geometry saved for leaving fullscreen is left out.
- Focus serials are unbounded; the source's 64-bit counter wraps.
- Floating point: ratios, animation values and pointer positions are real numbers, rounding is not modelled.
- Events.Enabled: four inputs on which the source reads through a null pointer are no events of the model. They are toggling a focused window of a tiled workspace between tiled and floating with the cursor on no output; grabbing, or mapping, a tiled window on a tiled workspace no output shows; and swapping the master of a tiled workspace, the focused window being tiled, when the first window of its list is not tiled or not mapped (the search loop then nulls its own iterator).
- X11 windows whose surface is not associated yet: the source reads through a null pointer when it asks whether they are mapped; the model treats them as not mapped.
- Server.KumServer.RecalculateUsableArea: what the layer surfaces leave of an output is a parameter, because wlroots computes it; the layer surfaces' own focus requests are covered by an event that gives the seat to any surface.
- Server.KumServer.NewOutput: the output configuration at its end is a separate event (`Reconfigured`), which may give any output any area; what the layout of outputs says that area is stays a parameter. The same goes for a reloaded configuration.
- Server.KumServer.XwaylandMap: the boxes of the first output and of the window's own output, and the full area of the latter, are parameters, because they come from the output layout.
- Server.KumServer.Run: an output is known by its place in the list and a window by an identity, so pointers, aliasing and freeing are not modelled.
- Launcher.App.LaunchSelected: running the command, the desktop files and the sorting of entries.
- Kumbar.Bar.Dispatch: what a message does once it is handled.
- Notify.Notifier.Show: the texts of a notification; the clock plus a timeout is required to stay below the end of 64 bits.
- Config.LoadConfig: settings are kept as the text the last assignment gives; converting them into the structure's fields is left out. Those of window rules are converted.
- Config.ReadToken: numbers that do not fit an int, whose conversion is undefined in the source, come out unbounded.
- Config.SelectRule: fnmatch is a parameter.
- Easing.KumAnimation.Tick: a duration of zero, by which the source divides, is not modelled.
- Wire.IndexSurvives: signed overflow is modelled as wrapping around; arguments that do not fit an int are left out.
- kumclip, kumidle, kumwall, kumlock, kumshot, keyboard layouts and input settings: plumbing.
