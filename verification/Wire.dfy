/** The commands kumde-msg prints and the compositor parses. */
module Wire {
  import opened Text
  import Compositor

  const WORKSPACES: nat := 9
  const IPC_BUF: nat := 512
  const MSG_SIZE: nat := 512
  const EXEC_SIZE: nat := 400
  const NAME_LEN: nat := 63
  const MODE_LEN: nat := 15
  const EXEC_LEN: nat := 255

  /** `{"cmd":"` */
  const OPEN := "{\"cmd\":\""

  // ---------------------------------------------------------------- kumde-msg

  /** Subtracting one in an `int` that wraps around. */
  function Decremented(n: int): int {
    if n == -0x8000_0000 then 0x7FFF_FFFF else n - 1
  }

  /** What `snprintf` leaves in a buffer of `size` bytes. */
  function Printed(s: string, size: nat): string
    requires size > 0
  {
    Clipped(s, size - 1)
  }

  function IndexOpen(cmd: string): string {
    OPEN + cmd + "\",\"index\":"
  }

  function IndexMessage(cmd: string, index: int): string {
    Printed(IndexOpen(cmd) + Decimal(index) + "}\n", MSG_SIZE)
  }

  const LAYOUT_OPEN := OPEN + "layout" + "\",\"mode\":\""
  const LAUNCH_OPEN := OPEN + "launch" + "\",\"exec\":\""

  function LaunchMessage(exec: string): string {
    Printed(LAUNCH_OPEN + exec + "\"}\n", MSG_SIZE)
  }

  function Words(args: seq<string>): string {
    if |args| == 0 then ""
    else if |args| == 1 then args[0]
    else Words(args[..|args| - 1]) + " " + args[|args| - 1]
  }

  /** `close`, `quit` and `reload`. */
  function SimpleMessage(cmd: string): string {
    Printed(OPEN + cmd + "\"}\n", MSG_SIZE)
  }

  function LayoutMessage(mode: string): string {
    Printed(LAYOUT_OPEN + mode + "\"}\n", MSG_SIZE)
  }

  // ---------------------------------------------------------------- the compositor's side

  datatype Command =
    | Workspace(index: int)
    | MoveTo(index: int)
    | Close
    | Layout(mode: string)
    | Launch(exec: string)
    | Quit
    | Reload
    | BadIndex
    | MissingExec
    | Unknown

  /** `%n[^"]` */
  function Quoted(s: string, n: nat): string {
    Clipped(Upto(s, '\"'), n)
  }

  function Name(line: string): string {
    if OPEN <= line then Quoted(line[|OPEN|..], NAME_LEN) else ""
  }

  function ScanIndex(line: string, cmd: string): int {
    var open := IndexOpen(cmd);
    if open <= line && Number(line[|open|..]).Some? then Number(line[|open|..]).value else -1
  }

  function ScanQuoted(line: string, open: string, n: nat): string {
    if open <= line then Quoted(line[|open|..], n) else ""
  }

  /** The layout a mode stands for; any other text means floating. */
  function LayoutOf(mode: string): Compositor.Layout {
    if mode == "tile" then Compositor.Tile else if mode == "monocle" then Compositor.Monocle else Compositor.Floating
  }

  predicate IsIndex(i: int) {
    0 <= i < WORKSPACES
  }

  /** `ipc_handle_command`: what a line asks for. */
  function Understood(line: string): Command {
    var name := Name(line);
    if name == "workspace" then
      var i := ScanIndex(line, "workspace");
      if IsIndex(i) then Workspace(i) else BadIndex
    else if name == "move_to" then
      var i := ScanIndex(line, "move_to");
      if IsIndex(i) then MoveTo(i) else BadIndex
    else if name == "close" then Close
    else if name == "layout" then Layout(ScanQuoted(line, LAYOUT_OPEN, MODE_LEN))
    else if name == "launch" then
      var exec := ScanQuoted(line, LAUNCH_OPEN, EXEC_LEN);
      if |exec| > 0 then Launch(exec) else MissingExec
    else if name == "quit" then Quit
    else if name == "reload" then Reload
    else Unknown
  }

  /** The commands in the text of one read: its nonempty lines, the last one with or without a newline. */
  function Commands(text: string): seq<Command>
    decreases |text|
  {
    var line := Upto(text, '\n');
    (if |line| > 0 then [Understood(line)] else []) +
    if |line| < |text| then Commands(text[|line| + 1..]) else []
  }

  /** `handle_client_readable` when one read delivers `data`. */
  function Handled(data: string): seq<Command> {
    Commands(Upto(Printed(data, IPC_BUF), '\0'))
  }

  // ---------------------------------------------------------------- lines survive

  /** A single line with its newline, short enough for the buffer, is one command. */
  lemma OneLine(line: string)
    requires |line| > 0 && '\n' !in line && '\0' !in line && |line| + 1 < IPC_BUF
    ensures Handled(line + "\n") == [Understood(line)]
  {
    var data := line + "\n";
    UptoFirst(data, '\0', "");
    assert data + "" == data;
    UptoFirst(line, '\n', "\n");
    assert data[|line| + 1..] == "";
    assert Commands("") == [];
  }

  /** Reading back a quoted text. */
  lemma QuotedBack(a: string, rest: string, n: nat)
    requires '\"' !in a && |rest| > 0 && rest[0] == '\"'
    ensures Quoted(a + rest, n) == Clipped(a, n)
  {
    UptoFirst(a, '\"', rest);
  }

  lemma NameBack(cmd: string, rest: string)
    requires '\"' !in cmd && |cmd| <= NAME_LEN && |rest| > 0 && rest[0] == '\"'
    ensures Name(OPEN + cmd + rest) == cmd
  {
    var line := OPEN + cmd + rest;
    assert line[|OPEN|..] == cmd + rest;
    QuotedBack(cmd, rest, NAME_LEN);
  }

  predicate Plain(s: string) {
    '\"' !in s && '\n' !in s && '\0' !in s
  }

  function IndexLine(cmd: string, index: int): string {
    IndexOpen(cmd) + Decimal(index) + "}"
  }

  lemma IndexPrinted(cmd: string, index: int)
    requires Plain(cmd) && |cmd| <= NAME_LEN && Int32(index)
    ensures IndexMessage(cmd, index) == IndexLine(cmd, index) + "\n"
    ensures Handled(IndexMessage(cmd, index)) == [Understood(IndexLine(cmd, index))]
  {
    hide Handled, Understood, Decimal;
    var open := IndexOpen(cmd);
    var line := IndexLine(cmd, index);
    DecimalShort(index);
    assert open + Decimal(index) + "}\n" == line + "\n";
    assert '\n' !in open && '\0' !in open;
    OneLine(line);
  }

  lemma IndexScanned(cmd: string, index: int)
    requires Plain(cmd) && |cmd| <= NAME_LEN
    ensures Name(IndexLine(cmd, index)) == cmd && ScanIndex(IndexLine(cmd, index), cmd) == index
  {
    hide Name, Number, Decimal;
    var line := IndexLine(cmd, index);
    var tail := "\",\"index\":" + Decimal(index) + "}";
    assert line == OPEN + cmd + tail;
    NameBack(cmd, tail);
    assert line[|IndexOpen(cmd)|..] == Decimal(index) + "}";
    NumberRoundTrip(index, "}");
  }

  lemma PlainNames()
    ensures Plain("workspace") && Plain("move_to") && Plain("launch")
    ensures "workspace" != "move_to"
  {
  }

  /** For every argument that is an `int`, `workspace n` and `move-to n` reach the compositor as index
      n - 1 when n is 1 to 9, and are refused otherwise. */
  lemma IndexSurvives(arg: string)
    requires Int32(Atoi(arg))
    ensures var n := Atoi(arg);
      && Handled(IndexMessage("workspace", Decremented(n))) == [if 1 <= n <= 9 then Workspace(n - 1) else BadIndex]
      && Handled(IndexMessage("move_to", Decremented(n))) == [if 1 <= n <= 9 then MoveTo(n - 1) else BadIndex]
  {
    var index := Decremented(Atoi(arg));
    hide Atoi, IndexMessage, IndexLine, Handled, Name, ScanIndex, Plain;
    PlainNames();
    IndexPrinted("workspace", index);
    IndexScanned("workspace", index);
    IndexPrinted("move_to", index);
    IndexScanned("move_to", index);
  }

  /** The line a launch message amounts to, unless its command has a newline in it. */
  function LaunchLine(exec: string): string {
    LAUNCH_OPEN + exec + "\"}"
  }

  lemma LaunchPrinted(exec: string)
    requires |exec| < EXEC_SIZE
    ensures LaunchMessage(exec) == LaunchLine(exec) + "\n"
    ensures |LaunchLine(exec)| + 1 < IPC_BUF
  {
    assert |LAUNCH_OPEN| == 24;
    assert LAUNCH_OPEN + exec + "\"}\n" == LaunchLine(exec) + "\n";
  }

  lemma LaunchName()
    ensures "launch" != "workspace" && "launch" != "move_to" && "launch" != "close" && "launch" != "layout"
  {
    assert "launch"[2] == 'u' && "layout"[2] == 'y';
    assert |"move_to"| == 7;
    assert |"close"| == 5;
  }

  lemma LaunchUnderstood(exec: string, rest: string)
    requires '\"' !in exec && (|rest| > 0 ==> rest[0] == '\"')
    ensures Understood(LAUNCH_OPEN + exec + rest) ==
      if |exec| > 0 then Launch(Clipped(exec, EXEC_LEN)) else MissingExec
  {
    var line := LAUNCH_OPEN + exec + rest;
    PlainNames();
    var tail := "\",\"exec\":\"" + exec + rest;
    assert line == OPEN + "launch" + tail;
    NameBack("launch", tail);
    assert line[|LAUNCH_OPEN|..] == exec + rest;
    UptoFirst(exec, '\"', rest);
    LaunchName();
  }

  lemma UnderstoodPlain(line: string)
    requires '\n' !in line
    ensures Understood(line).Launch? ==>
      var x := Understood(line).exec; 1 <= |x| <= EXEC_LEN && '\"' !in x && '\n' !in x
  {
    hide Name, Upto;
    var x := ScanQuoted(line, LAUNCH_OPEN, EXEC_LEN);
    if LAUNCH_OPEN <= line {
      var rest := line[|LAUNCH_OPEN|..];
      assert x <= Upto(rest, '\"') && x <= rest;
      assert forall c :: c in x ==> c in rest;
    }
  }

  /** A command that reaches the compositor to be launched is nonempty, short, and free of quotes and newlines. */
  lemma {:induction false} LaunchedPlain(text: string)
    ensures forall c :: c in Commands(text) && c.Launch? ==>
      1 <= |c.exec| <= EXEC_LEN && '\"' !in c.exec && '\n' !in c.exec
    decreases |text|
  {
    var line := Upto(text, '\n');
    UnderstoodPlain(line);
    if |line| < |text| {
      LaunchedPlain(text[|line| + 1..]);
    }
  }

  /** A command line is launched unchanged exactly when it has 1 to 255 bytes and neither a quote nor a
      newline in it. */
  lemma LaunchSurvives(args: seq<string>)
    requires '\0' !in Words(args)
    ensures var w := Words(args);
      Handled(LaunchMessage(Clipped(w, EXEC_SIZE - 1))) == [Launch(w)] <==>
      1 <= |w| <= EXEC_LEN && '\"' !in w && '\n' !in w
  {
    hide Understood, Commands, Words, Upto;
    var w := Words(args);
    var exec := Clipped(w, EXEC_SIZE - 1);
    LaunchPrinted(exec);
    if 1 <= |w| <= EXEC_LEN && '\"' !in w && '\n' !in w {
      assert '\n' !in LAUNCH_OPEN && '\0' !in LAUNCH_OPEN;
      OneLine(LaunchLine(exec));
      LaunchUnderstood(exec, "\"}");
    } else {
      var text := Upto(Printed(LaunchMessage(exec), IPC_BUF), '\0');
      LaunchedPlain(text);
      if Commands(text) == [Launch(w)] {
        assert Commands(text)[0] in Commands(text);
      }
    }
  }

  function SimpleLine(cmd: string): string {
    OPEN + cmd + "\"}"
  }

  lemma SimplePrinted(cmd: string)
    requires Plain(cmd) && |cmd| <= NAME_LEN
    ensures Handled(SimpleMessage(cmd)) == [Understood(SimpleLine(cmd))] && Name(SimpleLine(cmd)) == cmd
  {
    hide Handled, Understood, Name;
    var line := SimpleLine(cmd);
    assert OPEN + cmd + "\"}\n" == line + "\n";
    assert '\n' !in OPEN && '\0' !in OPEN;
    OneLine(line);
    NameBack(cmd, "\"}");
  }

  lemma SimpleNames()
    ensures Plain("close") && Plain("quit") && Plain("reload")
    ensures "close" != "workspace" && "close" != "move_to"
    ensures "quit" !in ["workspace", "move_to", "close", "layout", "launch"]
    ensures "reload" !in ["workspace", "move_to", "close", "layout", "launch", "quit"]
  {
    assert |"workspace"| == 9 && |"move_to"| == 7 && |"close"| == 5 && |"quit"| == 4;
    assert "layout"[0] == 'l' && "launch"[0] == 'l' && "reload"[0] == 'r';
  }

  /** `close`, `quit` and `reload` each reach the compositor as what they are. */
  lemma SimpleSurvives()
    ensures Handled(SimpleMessage("close")) == [Close]
    ensures Handled(SimpleMessage("quit")) == [Quit]
    ensures Handled(SimpleMessage("reload")) == [Reload]
  {
    hide Handled, Name, SimpleMessage, SimpleLine, ScanIndex, ScanQuoted, Plain;
    SimpleNames();
    SimplePrinted("close");
    SimplePrinted("quit");
    SimplePrinted("reload");
  }

  function LayoutLine(mode: string): string {
    LAYOUT_OPEN + mode + "\"}"
  }

  lemma LayoutName()
    ensures "layout" != "workspace" && "layout" != "move_to" && "layout" != "close" && '\"' !in "layout"
    ensures |LAYOUT_OPEN| == 24 && '\n' !in LAYOUT_OPEN && '\0' !in LAYOUT_OPEN
  {
    assert |"workspace"| == 9 && |"move_to"| == 7 && |"close"| == 5 && |"layout"| == 6;
  }

  lemma LayoutUnderstood(mode: string)
    requires '\"' !in mode
    ensures Understood(LayoutLine(mode)) == Layout(Clipped(mode, MODE_LEN))
  {
    hide Quoted;
    var line := LayoutLine(mode);
    LayoutName();
    var tail := "\",\"mode\":\"" + mode + "\"}";
    assert line == OPEN + "layout" + tail;
    NameBack("layout", tail);
    assert line[|LAYOUT_OPEN|..] == mode + "\"}";
    QuotedBack(mode, "\"}", MODE_LEN);
  }

  /** A layout mode reaches the compositor, up to its first 15 bytes. */
  lemma LayoutSurvives(mode: string)
    requires Plain(mode) && |mode| < EXEC_SIZE
    ensures Handled(LayoutMessage(mode)) == [Layout(Clipped(mode, MODE_LEN))]
  {
    hide Handled, Understood;
    LayoutName();
    LayoutUnderstood(mode);
    var line := LayoutLine(mode);
    assert LAYOUT_OPEN + mode + "\"}\n" == line + "\n";
    OneLine(line);
  }

  lemma Modes()
    ensures Plain("tile") && Plain("float") && Plain("monocle")
    ensures LayoutOf("tile") == Compositor.Tile && LayoutOf("float") == Compositor.Floating
    ensures LayoutOf("monocle") == Compositor.Monocle
  {
    assert |"tile"| == 4 && |"float"| == 5 && |"monocle"| == 7;
  }

  /** So the three modes kumde-msg documents select the layouts they name. */
  lemma ModesSurvive()
    ensures exists m :: Handled(LayoutMessage("tile")) == [Layout(m)] && LayoutOf(m) == Compositor.Tile
    ensures exists m :: Handled(LayoutMessage("float")) == [Layout(m)] && LayoutOf(m) == Compositor.Floating
    ensures exists m :: Handled(LayoutMessage("monocle")) == [Layout(m)] && LayoutOf(m) == Compositor.Monocle
  {
    hide Handled, LayoutMessage, LayoutOf, Plain;
    Modes();
    LayoutSurvives("tile");
    LayoutSurvives("float");
    LayoutSurvives("monocle");
  }

  // ---------------------------------------------------------------- the loops

  lemma {:induction false} WordsGrow(args: seq<string>, i: nat)
    requires 0 < i <= |args|
    ensures Words(args[..i]) <= Words(args)
    decreases |args| - i
  {
    if i < |args| {
      WordsGrow(args, i + 1);
      assert args[..i + 1][..i] == args[..i];
    } else {
      assert args[..i] == args;
    }
  }

  /** The pieces of a text between spaces. */
  function Pieces(s: string): seq<string>
    decreases |s|
  {
    var w := Upto(s, ' ');
    if |w| == |s| then [w] else [w] + Pieces(s[|w| + 1..])
  }

  lemma {:induction false} WordsFront(a: string, rest: seq<string>)
    requires |rest| > 0
    ensures Words([a] + rest) == a + " " + Words(rest)
    decreases |rest|
  {
    var args := [a] + rest;
    var n := |rest| - 1;
    if n > 0 {
      WordsFront(a, rest[..n]);
      assert args[..n + 1] == [a] + rest[..n] && args[n + 1] == rest[n];
      assert a + " " + Words(rest[..n]) + " " + rest[n] == a + " " + (Words(rest[..n]) + " " + rest[n]);
    } else {
      assert args[..1] == [a];
    }
  }

  lemma PiecesFront(a: string, rest: string)
    requires ' ' !in a
    ensures Pieces(a + " " + rest) == [a] + Pieces(rest) && Pieces(a) == [a]
  {
    hide Upto;
    var s := a + " " + rest;
    UptoFirst(a, ' ', " " + rest);
    assert s == a + (" " + rest) && s[|a| + 1..] == rest;
    UptoFirst(a, ' ', "");
    assert a + "" == a;
  }

  /** Splitting the joined command line at its spaces gives the arguments back, if none holds a space. */
  lemma {:induction false} WordsSplit(args: seq<string>)
    requires |args| > 0 && forall a :: a in args ==> ' ' !in a
    ensures Pieces(Words(args)) == args
  {
    var rest := args[1..];
    assert args == [args[0]] + rest && args[0] in args;
    if |rest| == 0 {
      PiecesFront(args[0], "");
    } else {
      assert forall a :: a in rest ==> a in args;
      WordsFront(args[0], rest);
      PiecesFront(args[0], Words(rest));
      WordsSplit(rest);
    }
  }

  /** The loop of kumde-msg that joins its arguments in a buffer of 400 bytes. */
  method BuildExec(args: seq<string>) returns (exec: string)
    ensures exec == Clipped(Words(args), EXEC_SIZE - 1)
  {
    exec := "";
    var len := 0;
    assert args[..0] == [];
    for i := 0 to |args|
      invariant exec == Words(args[..i]) && len == |exec| < EXEC_SIZE
    {
      var piece := (if i > 0 then " " else "") + args[i];
      assert args[..i + 1][..i] == args[..i];
      assert Words(args[..i + 1]) == exec + piece;
      var n := |piece|;
      exec := exec + Printed(piece, EXEC_SIZE - len);
      if n >= EXEC_SIZE - len {
        WordsGrow(args, i + 1);
        assert exec == Words(args[..i + 1])[..EXEC_SIZE - 1];
        return;
      }
      len := len + n;
    }
    assert args[..|args|] == args;
  }

  lemma {:induction false} CommandsStep(text: string)
    requires '\n' in text
    ensures var k := |Upto(text, '\n')|;
      k < |text| && Commands(text) == (if k > 0 then [Understood(text[..k])] else []) + Commands(text[k + 1..])
  {
    hide Understood, Upto;
    var line := Upto(text, '\n');
    assert text[..|line|] == line && |line| < |text|;
  }

  lemma {:induction false} CommandsLast(text: string)
    requires '\n' !in text
    ensures Commands(text) == if |text| > 0 then [Understood(text)] else []
  {
    hide Understood;
    UptoFirst(text, '\n', "");
    assert text + "" == text;
  }

  /** `strchr(line, '\n')`. */
  method FindNewline(line: string) returns (nl: int)
    ensures if '\n' in line then nl == |Upto(line, '\n')| < |line| else nl == -1
  {
    nl := 0;
    while nl < |line|
      invariant 0 <= nl <= |line| && '\n' !in line[..nl]
    {
      if line[nl] == '\n' {
        UptoFirst(line[..nl], '\n', line[nl..]);
        assert line[..nl] + line[nl..] == line;
        return;
      }
      nl := nl + 1;
    }
    assert line[..nl] == line;
    return -1;
  }

  /** `handle_client_readable`: the commands of one read. */
  method HandleReadable(data: string) returns (done: seq<Command>)
    requires 0 < |data| < IPC_BUF
    ensures done == Handled(data)
  {
    hide Understood, Commands, Upto;
    var buf := Upto(data, '\0');
    done := [];
    var line := buf;
    var nl := FindNewline(line);
    while nl != -1
      invariant done + Commands(line) == Commands(buf)
      invariant if '\n' in line then nl == |Upto(line, '\n')| < |line| else nl == -1
      decreases |line|
    {
      CommandsStep(line);
      if nl > 0 {
        assert line[..nl] == Upto(line, '\n');
        done := done + [Understood(line[..nl])];
      }
      line := line[nl + 1..];
      nl := FindNewline(line);
    }
    CommandsLast(line);
    if |line| > 0 {
      done := done + [Understood(line)];
    }
  }
}
