/** The two readers of kumde.conf: one for the configuration proper, one for the window rules. */
module Config {
  import opened Prelude
  import opened Text

  const LINE_MAX: nat := 511
  const OUTPUTS_MAX: nat := 8
  const AUTOSTART_MAX: nat := 16
  const AUTOSTART_LEN: nat := 255
  const NAME_LEN: nat := 63
  const PATTERN_LEN: nat := 127

  // ---------------------------------------------------------------- reading the file

  /** How much `fgets` reads with a buffer of 512 bytes: a line, or as much of it as fits. */
  function PieceLength(file: string): (n: nat)
    requires |file| > 0
    ensures 0 < n <= |file| && n <= LINE_MAX && '\n' !in file[..n - 1]
  {
    var line := Upto(file, '\n');
    var n := if |line| + 1 <= LINE_MAX && |line| + 1 <= |file| then |line| + 1
             else if |file| < LINE_MAX then |file| else LINE_MAX;
    assert n - 1 <= |line| && file[..n - 1] == line[..n - 1];
    n
  }

  /** The pieces a file is read in: a line at a time, long lines in several pieces. */
  function Pieces(file: string): seq<string> {
    if |file| == 0 then [] else [file[..PieceLength(file)]] + Pieces(file[PieceLength(file)..])
  }

  function Joined(pieces: seq<string>): string {
    if |pieces| == 0 then [] else pieces[0] + Joined(pieces[1..])
  }

  /** Reading loses nothing, and no piece overflows the buffer. */
  lemma {:induction false} PiecesJoin(file: string)
    ensures Joined(Pieces(file)) == file
    ensures forall p :: p in Pieces(file) ==> 0 < |p| <= LINE_MAX && '\n' !in p[..|p| - 1]
  {
    hide PieceLength;
    if |file| > 0 {
      var n := PieceLength(file);
      var piece := file[..n];
      PiecesJoin(file[n..]);
      assert piece[..|piece| - 1] == file[..n - 1];
      assert Pieces(file)[1..] == Pieces(file[n..]);
    }
  }

  // ---------------------------------------------------------------- lines

  datatype Line = Skip | Header(text: string) | Assign(key: string, val: string) | Junk

  /** How both readers look at a piece. */
  function Parsed(piece: string): Line {
    var s := Trimmed(Upto(piece, '\0'));
    if |s| == 0 || s[0] == '#' then Skip
    else if s[0] == '[' then Header(s)
    else if '=' !in s then Junk
    else
      var key := Upto(s, '=');
      Assign(Trimmed(key), Trimmed(s[|key| + 1..]))
  }

  datatype Section = Global | Input | Rules | Out

  function SectionOf(header: string): Section {
    if header == "[input]" then Input
    else if header == "[rules]" then Rules
    else if "[output " <= header then Out
    else Global
  }

  /** The name `sscanf` finds in an output header. */
  function OutputName(header: string): string
    requires "[output " <= header
  {
    Clipped(Upto(SkipSpace(header[7..]), ']'), NAME_LEN)
  }

  predicate ParseBool(v: string) {
    v == "true" || v == "1" || v == "yes"
  }

  // ---------------------------------------------------------------- what lines say

  /** A text on one line of a configuration file, without white space at its ends. */
  predicate Phrase(s: string) {
    |s| > 0 && !IsSpace(s[0]) && !IsSpace(s[|s| - 1]) && '\0' !in s
  }

  lemma LineTrimmed(indent: string, s: string)
    requires Phrase(s) && AllSpace(indent) && '\0' !in indent
    ensures Upto(indent + s + "\n", '\0') == indent + s + "\n" && Trimmed(indent + s + "\n") == s
  {
    hide Upto, Trimmed;
    var piece := indent + s + "\n";
    UptoFirst(piece, '\0', "");
    assert piece + "" == piece;
    TrimmedExactly(indent, s, "\n");
  }

  /** `key = value`, however indented, assigns the value to the key. */
  lemma AssignParsed(indent: string, key: string, val: string)
    requires AllSpace(indent) && '\0' !in indent && Phrase(key) && Phrase(val) && '=' !in key && key[0] != '#' && key[0] != '['
    ensures Parsed(indent + (key + " = " + val) + "\n") == Assign(key, val)
  {
    hide Upto, Trimmed;
    var s := key + " = " + val;
    LineTrimmed(indent, s);
    assert s == (key + " ") + ("= " + val);
    UptoFirst(key + " ", '=', "= " + val);
    assert s[|key + " "| + 1..] == " " + val;
    TrimmedExactly("", key, " ");
    TrimmedExactly(" ", val, "");
    assert "" + key + " " == key + " " && " " + val + "" == " " + val;
  }

  /** A line in brackets is a header, and one that starts with `#` says nothing. */
  lemma HeaderParsed(indent: string, s: string)
    requires AllSpace(indent) && '\0' !in indent && Phrase(s)
    ensures s[0] == '[' ==> Parsed(indent + s + "\n") == Header(s)
    ensures s[0] == '#' ==> Parsed(indent + s + "\n") == Skip
  {
    hide Upto, Trimmed;
    LineTrimmed(indent, s);
  }

  /** `[output NAME]` is the section of the output of that name. */
  lemma OutputNamed(name: string)
    requires Phrase(name) && ']' !in name
    ensures SectionOf("[output " + name + "]") == Out
    ensures OutputName("[output " + name + "]") == Clipped(name, NAME_LEN)
  {
    hide Upto;
    var h := "[output " + name + "]";
    assert h[1] == 'o' && "[input]"[1] == 'i' && "[rules]"[1] == 'r';
    assert h[..8] == "[output ";
    assert h[7..] == " " + (name + "]");
    SpacesSkipped(" ", name + "]");
    UptoFirst(name, ']', "]");
  }

  // ---------------------------------------------------------------- kum_config_load

  type Pair = (string, string)

  /** One `[output …]` section; `settings` are its assignments in order, their numbers not yet converted. */
  datatype OutputConf = OutputConf(name: string, enabled: bool, settings: seq<Pair>)

  datatype Conf = Conf(globals: seq<Pair>, autostart: seq<string>, inputs: seq<Pair>, outputs: seq<OutputConf>)

  function ApplyGlobal(c: Conf, key: string, val: string): Conf {
    if key == "autostart" then
      if |c.autostart| < AUTOSTART_MAX then c.(autostart := c.autostart + [Clipped(val, AUTOSTART_LEN)]) else c
    else c.(globals := c.globals + [(key, val)])
  }

  function ApplyOutput(o: OutputConf, key: string, val: string): OutputConf {
    o.(enabled := key != "enabled" || ParseBool(val), settings := o.settings + [(key, val)])
  }

  /** The reader's variables: the section, the output being filled in or -1, and what has been read. */
  datatype Reader = Reader(section: Section, out: int, conf: Conf)

  const FRESH := Reader(Global, -1, Conf([], [], [], []))

  predicate Sound(r: Reader) {
    -1 <= r.out < |r.conf.outputs| <= OUTPUTS_MAX
  }

  function Opened(r: Reader, header: string): (q: Reader)
    requires Sound(r)
    ensures Sound(q)
  {
    var section := SectionOf(header);
    if section == Out && |r.conf.outputs| < OUTPUTS_MAX then
      Reader(Out, |r.conf.outputs|, r.conf.(outputs := r.conf.outputs + [OutputConf(OutputName(header), false, [])]))
    else Reader(section, -1, r.conf)
  }

  function Stepped(r: Reader, line: Line): (q: Reader)
    requires Sound(r)
    ensures Sound(q)
  {
    match line
    case Header(h) => Opened(r, h)
    case Assign(key, val) =>
      (match r.section
       case Global => r.(conf := ApplyGlobal(r.conf, key, val))
       case Input => r.(conf := r.conf.(inputs := r.conf.inputs + [(key, val)]))
       case Rules => r
       case Out =>
         if r.out < 0 then r
         else r.(conf := r.conf.(outputs := r.conf.outputs[r.out := ApplyOutput(r.conf.outputs[r.out], key, val)])))
    case _ => r
  }

  function Loaded(ps: seq<Line>): (r: Reader)
    ensures Sound(r)
  {
    if |ps| == 0 then FRESH else Stepped(Loaded(ps[..|ps| - 1]), ps[|ps| - 1])
  }

  // ---------------------------------------------------------------- kum_rules_load

  /** A window rule; its workspace counts from 0 and is -1 when the rule names none. */
  datatype Rule = Rule(appId: string, title: string, workspace: int, floating: bool, fullscreen: bool,
                       w: int, h: int, x: int, y: int)

  const NO_RULE := Rule("", "", -1, false, false, 0, 0, 0, 0)

  function OrElse(n: Option<int>, otherwise: int): int {
    if n.Some? then n.value else otherwise
  }

  /** The nonempty tokens `strtok` finds between commas. */
  function Tokens(s: string): (r: seq<string>)
    ensures forall t :: t in r ==> ',' !in t
    decreases |s|
  {
    if |s| == 0 then []
    else
      var t := Upto(s, ',');
      (if |t| > 0 then [t] else []) + if |t| == |s| then [] else Tokens(s[|t| + 1..])
  }

  /** The field the key names. */
  function FieldSet(u: Rule, k: string, v: string): Rule {
    if k == "app_id" then u.(appId := Clipped(v, PATTERN_LEN))
    else if k == "title" then u.(title := Clipped(v, PATTERN_LEN))
    else if k == "workspace" then u.(workspace := Atoi(v) - 1)
    else if k == "floating" then u.(floating := v == "true")
    else if k == "fullscreen" then u.(fullscreen := v == "true")
    else if k == "size" then
      var (w, h) := ScannedPair(v, 'x');
      u.(w := OrElse(w, u.w), h := OrElse(h, u.h))
    else if k == "pos" then
      var (x, y) := ScannedPair(v, ',');
      u.(x := OrElse(x, u.x), y := OrElse(y, u.y))
    else u
  }

  function ApplyToken(u: Rule, token: string): Rule {
    var t := Trimmed(token);
    if ':' !in t then u
    else FieldSet(u, Trimmed(Upto(t, ':')), Trimmed(t[|Upto(t, ':')| + 1..]))
  }

  function RuleOf(tokens: seq<string>): Rule {
    if |tokens| == 0 then NO_RULE else ApplyToken(RuleOf(tokens[..|tokens| - 1]), tokens[|tokens| - 1])
  }

  /** The rules one assignment adds. */
  function RulesFrom(key: string, val: string): (r: seq<Rule>)
    ensures |r| <= 1
  {
    var u := RuleOf(Tokens(val));
    if key == "rule" && (|u.appId| > 0 || |u.title| > 0) then [u] else []
  }

  datatype RuleReader = RuleReader(inRules: bool, rules: seq<Rule>)

  function SteppedRules(r: RuleReader, line: Line): RuleReader {
    match line
    case Header(h) => r.(inRules := h == "[rules]")
    case Assign(key, val) => if r.inRules then r.(rules := RulesFrom(key, val) + r.rules) else r
    case _ => r
  }

  function LoadedRules(ps: seq<Line>): RuleReader {
    if |ps| == 0 then RuleReader(false, []) else SteppedRules(LoadedRules(ps[..|ps| - 1]), ps[|ps| - 1])
  }

  // ---------------------------------------------------------------- the readers agree

  lemma RulesHeader(h: string)
    ensures SectionOf(h) == Rules <==> h == "[rules]"
  {
    assert "[rules]"[1] == 'r' && "[input]"[1] == 'i';
  }

  lemma OpenedSection(r: Reader, h: string)
    requires Sound(r)
    ensures Opened(r, h).section == SectionOf(h)
  {
  }

  lemma SteppedSection(r: Reader, line: Line)
    requires Sound(r)
    ensures Stepped(r, line).section == if line.Header? then SectionOf(line.text) else r.section
  {
    hide SectionOf;
    if line.Header? {
      OpenedSection(r, line.text);
    }
  }

  /** Every line of a file is seen inside a `[rules]` section by both readers or by neither. */
  lemma {:induction false} SectionsAgree(ps: seq<Line>)
    ensures LoadedRules(ps).inRules <==> Loaded(ps).section == Rules
  {
    hide SectionOf, Stepped;
    if |ps| > 0 {
      var line := ps[|ps| - 1];
      SectionsAgree(ps[..|ps| - 1]);
      SteppedSection(Loaded(ps[..|ps| - 1]), line);
      if line.Header? {
        RulesHeader(line.text);
      }
    }
  }

  /** The file without the bodies of its `[rules]` sections. */
  function Outside(ps: seq<Line>): seq<Line> {
    if |ps| == 0 then []
    else
      var front := ps[..|ps| - 1];
      var line := ps[|ps| - 1];
      Outside(front) + if line.Header? || Loaded(front).section != Rules then [line] else []
  }

  /** The file's headers and the bodies of its `[rules]` sections. */
  function Inside(ps: seq<Line>): seq<Line> {
    if |ps| == 0 then []
    else
      var front := ps[..|ps| - 1];
      var line := ps[|ps| - 1];
      Inside(front) + if line.Header? || LoadedRules(front).inRules then [line] else []
  }

  lemma RulesBodyIgnored(r: Reader, line: Line)
    requires Sound(r)
    ensures r.section == Rules && !line.Header? ==> Stepped(r, line) == r
  {
  }

  lemma {:induction false} OutsideDecides(ps: seq<Line>)
    ensures Loaded(Outside(ps)) == Loaded(ps)
  {
    hide Stepped;
    if |ps| > 0 {
      var front := ps[..|ps| - 1];
      var line := ps[|ps| - 1];
      RulesBodyIgnored(Loaded(front), line);
      OutsideDecides(front);
      var kept := Outside(front) + [line];
      assert kept[..|kept| - 1] == Outside(front);
      assert Outside(front) + [] == Outside(front);
    }
  }

  lemma {:induction false} InsideDecides(ps: seq<Line>)
    ensures LoadedRules(Inside(ps)) == LoadedRules(ps)
  {
    hide RulesFrom;
    if |ps| > 0 {
      var front := ps[..|ps| - 1];
      var line := ps[|ps| - 1];
      InsideDecides(front);
      var kept := Inside(front) + [line];
      assert kept[..|kept| - 1] == Inside(front);
      assert Inside(front) + [] == Inside(front);
    }
  }

  /** Neither reader depends on anything meant for the other: files that differ only inside `[rules]`
      bodies give the same configuration, and files that differ only outside them give the same rules. */
  lemma ReadersIndependent(a: seq<Line>, b: seq<Line>)
    ensures Outside(a) == Outside(b) ==> Loaded(a).conf == Loaded(b).conf
    ensures Inside(a) == Inside(b) ==> LoadedRules(a).rules == LoadedRules(b).rules
  {
    OutsideDecides(a);
    OutsideDecides(b);
    InsideDecides(a);
    InsideDecides(b);
  }

  // ---------------------------------------------------------------- what the configuration reader keeps

  /** A section of the file: its header, empty for the text before the first one, and its assignments. */
  datatype Block = Block(header: string, body: seq<Pair>)

  function Blocks(ps: seq<Line>): (r: seq<Block>)
    ensures |r| > 0
  {
    if |ps| == 0 then [Block("", [])]
    else
      var r := Blocks(ps[..|ps| - 1]);
      match ps[|ps| - 1]
      case Header(h) => r + [Block(h, [])]
      case Assign(key, val) => r[|r| - 1 := r[|r| - 1].(body := r[|r| - 1].body + [(key, val)])]
      case _ => r
  }

  /** All assignments of the sections of one kind, in file order. */
  function Bodies(bs: seq<Block>, section: Section): seq<Pair> {
    if |bs| == 0 then []
    else
      var b := bs[|bs| - 1];
      Bodies(bs[..|bs| - 1], section) + if SectionOf(b.header) == section then b.body else []
  }

  /** The values given to one key, each clipped to `n` bytes. */
  function ValuesOf(pairs: seq<Pair>, key: string, n: nat): seq<string> {
    if |pairs| == 0 then []
    else
      var p := pairs[|pairs| - 1];
      ValuesOf(pairs[..|pairs| - 1], key, n) + if p.0 == key then [Clipped(p.1, n)] else []
  }

  function OtherThan(pairs: seq<Pair>, key: string): seq<Pair> {
    if |pairs| == 0 then []
    else
      var p := pairs[|pairs| - 1];
      OtherThan(pairs[..|pairs| - 1], key) + if p.0 == key then [] else [p]
  }

  function Take<T>(s: seq<T>, n: nat): seq<T> {
    if |s| <= n then s else s[..n]
  }

  /** The sections that describe outputs. */
  function OutBlocks(bs: seq<Block>): (r: seq<Block>)
    ensures forall b :: b in r ==> SectionOf(b.header) == Out
  {
    if |bs| == 0 then []
    else
      var b := bs[|bs| - 1];
      OutBlocks(bs[..|bs| - 1]) + if SectionOf(b.header) == Out then [b] else []
  }

  /** An output is switched on by every assignment but one to `enabled` that does not say so. */
  function OutputOf(b: Block): OutputConf
    requires SectionOf(b.header) == Out
  {
    var last := if |b.body| > 0 then b.body[|b.body| - 1] else ("enabled", "");
    OutputConf(OutputName(b.header), last.0 != "enabled" || ParseBool(last.1), b.body)
  }

  /** How the reader's variables reflect the sections read so far. */
  ghost predicate Reflects(r: Reader, bs: seq<Block>) {
    && Sound(r) && |bs| > 0
    && var last := bs[|bs| - 1]; var outs := OutBlocks(bs);
       && r.section == SectionOf(last.header)
       && r.conf.inputs == Bodies(bs, Input)
       && r.conf.globals == OtherThan(Bodies(bs, Global), "autostart")
       && r.conf.autostart == Take(ValuesOf(Bodies(bs, Global), "autostart", AUTOSTART_LEN), AUTOSTART_MAX)
       && |r.conf.outputs| == |Take(outs, OUTPUTS_MAX)|
       && (forall i :: 0 <= i < |r.conf.outputs| ==> r.conf.outputs[i] == OutputOf(outs[i]))
       && r.out == if r.section == Out && |outs| <= OUTPUTS_MAX then |outs| - 1 else -1
  }

  lemma LastBody(bs: seq<Block>, b: Block, section: Section)
    ensures Bodies(bs + [b], section) == Bodies(bs, section) + if SectionOf(b.header) == section then b.body else []
  {
    assert (bs + [b])[..|bs|] == bs;
  }

  lemma LastOut(bs: seq<Block>, b: Block)
    ensures OutBlocks(bs + [b]) == OutBlocks(bs) + if SectionOf(b.header) == Out then [b] else []
  {
    assert (bs + [b])[..|bs|] == bs;
  }

  lemma LastPair(pairs: seq<Pair>, p: Pair, key: string, n: nat)
    ensures ValuesOf(pairs + [p], key, n) == ValuesOf(pairs, key, n) + if p.0 == key then [Clipped(p.1, n)] else []
    ensures OtherThan(pairs + [p], key) == OtherThan(pairs, key) + if p.0 == key then [] else [p]
  {
    assert (pairs + [p])[..|pairs|] == pairs;
  }

  /** A new header starts a new section. */
  lemma OpenReflects(r: Reader, bs: seq<Block>, h: string)
    requires Reflects(r, bs)
    ensures Reflects(Opened(r, h), bs + [Block(h, [])])
  {
    hide SectionOf, OutputName, ValuesOf, OtherThan, Bodies, OutBlocks;
    var b := Block(h, []);
    LastBody(bs, b, Global);
    LastBody(bs, b, Input);
    LastOut(bs, b);
    assert forall x: seq<Pair> :: x + [] == x;
    assert OutBlocks(bs) + [] == OutBlocks(bs);
  }

  /** The sections after one more assignment in the last one. */
  function Assigned(bs: seq<Block>, p: Pair): seq<Block>
    requires |bs| > 0
  {
    bs[|bs| - 1 := bs[|bs| - 1].(body := bs[|bs| - 1].body + [p])]
  }

  lemma AssignedBodies(bs: seq<Block>, p: Pair, section: Section)
    requires |bs| > 0
    ensures Bodies(Assigned(bs, p), section) ==
      Bodies(bs, section) + if SectionOf(bs[|bs| - 1].header) == section then [p] else []
  {
    hide SectionOf, Bodies;
    var front, b := bs[..|bs| - 1], bs[|bs| - 1];
    assert bs == front + [b] && Assigned(bs, p) == front + [b.(body := b.body + [p])];
    LastBody(front, b, section);
    LastBody(front, b.(body := b.body + [p]), section);
    assert Bodies(front, section) + (b.body + [p]) == Bodies(front, section) + b.body + [p];
    assert Bodies(front, section) + [] + [] == Bodies(front, section) + [];
  }

  lemma AssignedOuts(bs: seq<Block>, p: Pair)
    requires |bs| > 0
    ensures var outs := OutBlocks(bs); var b := bs[|bs| - 1];
      if SectionOf(b.header) == Out then
        |outs| > 0 && outs[|outs| - 1] == b &&
        OutBlocks(Assigned(bs, p)) == outs[|outs| - 1 := b.(body := b.body + [p])]
      else OutBlocks(Assigned(bs, p)) == outs
  {
    hide SectionOf, OutBlocks;
    var front, b := bs[..|bs| - 1], bs[|bs| - 1];
    assert bs == front + [b] && Assigned(bs, p) == front + [b.(body := b.body + [p])];
    LastOut(front, b);
    LastOut(front, b.(body := b.body + [p]));
  }

  lemma OutputAssigned(b: Block, key: string, val: string)
    requires SectionOf(b.header) == Out
    ensures OutputOf(b.(body := b.body + [(key, val)])) == ApplyOutput(OutputOf(b), key, val)
  {
  }

  /** An assignment goes to the section it stands in. */
  lemma AssignReflects(r: Reader, bs: seq<Block>, key: string, val: string)
    requires Reflects(r, bs)
    ensures Reflects(Stepped(r, Assign(key, val)), Assigned(bs, (key, val)))
  {
    hide SectionOf, OutputName, ValuesOf, OtherThan, Bodies, OutBlocks, OutputOf, ApplyOutput;
    var p := (key, val);
    AssignedBodies(bs, p, Global);
    AssignedBodies(bs, p, Input);
    AssignedOuts(bs, p);
    LastPair(Bodies(bs, Global), p, "autostart", AUTOSTART_LEN);
    assert Bodies(bs, Input) + [] == Bodies(bs, Input) && Bodies(bs, Global) + [] == Bodies(bs, Global);
    if r.section == Out {
      OutputAssigned(bs[|bs| - 1], key, val);
    }
  }

  lemma FreshReflects()
    ensures Reflects(FRESH, [Block("", [])])
  {
    var b := Block("", []);
    LastBody([], b, Global);
    LastBody([], b, Input);
    LastOut([], b);
    assert [] + [b] == [b];
    assert |""| == 0 && |"[input]"| > 0 && |"[rules]"| > 0 && |"[output "| > 0;
  }

  lemma StepReflects(r: Reader, bs: seq<Block>, line: Line)
    requires Sound(r)
    ensures line.Header? ==> Stepped(r, line) == Opened(r, line.text)
    ensures line.Skip? || line.Junk? ==> Stepped(r, line) == r
  {
  }

  /** What the reader has read is exactly what the sections of the file say: the assignments before any
      header and in sections of no other kind are global, only the first 16 `autostart` values count, and
      only the first 8 output sections, each with its own assignments. */
  lemma {:induction false} LoadedReflects(ps: seq<Line>)
    ensures Reflects(Loaded(ps), Blocks(ps))
  {
    hide Reflects, Stepped;
    if |ps| == 0 {
      FreshReflects();
    } else {
      var front := ps[..|ps| - 1];
      LoadedReflects(front);
      StepReflects(Loaded(front), Blocks(front), ps[|ps| - 1]);
      match ps[|ps| - 1] {
        case Header(h) => OpenReflects(Loaded(front), Blocks(front), h);
        case Assign(key, val) => AssignReflects(Loaded(front), Blocks(front), key, val);
        case _ =>
      }
    }
  }

  lemma NoBool()
    ensures !ParseBool("")
  {
  }

  /** An output is switched on by any assignment at all, and off again only by a last one to `enabled`. */
  lemma EnabledByLast(ps: seq<Line>, i: nat)
    requires i < |Loaded(ps).conf.outputs|
    ensures var o := Loaded(ps).conf.outputs[i]; var n := |o.settings|;
      o.enabled <==> n > 0 && (o.settings[n - 1].0 != "enabled" || ParseBool(o.settings[n - 1].1))
  {
    hide Loaded, OutputName, ParseBool;
    LoadedReflects(ps);
    NoBool();
  }

  lemma LoadedMore(front: seq<Line>, line: Line)
    ensures Loaded(front + [line]) == Stepped(Loaded(front), line)
  {
    hide Stepped;
    assert (front + [line])[..|front|] == front;
  }

  lemma NotTrue()
    ensures !ParseBool("false")
  {
    assert "false"[0] == 'f' && "true"[0] == 't' && "1"[0] == '1' && "yes"[0] == 'y';
  }

  /** One output section that switches its output off and then sets something else. */
  function OffAndOn(header: string, key: string, val: string): seq<Line> {
    [Header(header), Assign("enabled", "false"), Assign(key, val)]
  }

  lemma NothingLoaded()
    ensures Loaded([]) == FRESH
  {
  }

  lemma OffThenOn(header: string, key: string, val: string)
    requires SectionOf(header) == Out && key != "enabled"
    ensures var off := Loaded(OffAndOn(header, key, val)[..2]).conf.outputs; |off| == 1 && !off[0].enabled
    ensures var on := Loaded(OffAndOn(header, key, val)).conf.outputs; |on| == 1 && on[0].enabled
  {
    NotTrue();
    hide SectionOf, OutputName, ParseBool, Loaded;
    var ps := OffAndOn(header, key, val);
    assert Loaded([]) == FRESH by {
      NothingLoaded();
    }
    LoadedMore([], ps[0]);
    LoadedMore(ps[..1], ps[1]);
    LoadedMore(ps[..2], ps[2]);
    assert [] + [ps[0]] == ps[..1] && ps[..1] + [ps[1]] == ps[..2] && ps[..2] + [ps[2]] == ps;
  }

  // ---------------------------------------------------------------- rules

  lemma OneNumber(v: string)
    requires ',' !in v
    ensures ScannedPair(v, ',').1.None?
  {
    hide Scanned, Number;
    var r := Scanned(v);
    if r.Some? && |r.value.1| > 0 {
      assert r.value.1[0] in v;
    }
  }

  lemma TokenKeepsY(u: Rule, token: string)
    requires ',' !in token
    ensures ApplyToken(u, token).y == u.y
  {
    hide Trimmed, Upto, Clipped, Scanned, Number;
    var t := Trimmed(token);
    if ':' in t {
      var rest := t[|Upto(t, ':')| + 1..];
      assert forall c :: c in rest ==> c in t;
      var v := Trimmed(rest);
      assert ',' !in v;
      OneNumber(v);
    }
  }

  lemma {:induction false} TokensKeepY(tokens: seq<string>)
    requires forall t :: t in tokens ==> ',' !in t
    ensures RuleOf(tokens).y == 0
  {
    hide ApplyToken;
    if |tokens| > 0 {
      var front, last := tokens[..|tokens| - 1], tokens[|tokens| - 1];
      assert forall t :: t in front ==> t in tokens;
      assert last in tokens;
      TokensKeepY(front);
      TokenKeepsY(RuleOf(front), last);
    }
  }

  /** The rules in the order the file gives them. */
  function InFileOrder(ps: seq<Line>): seq<Rule> {
    if |ps| == 0 then []
    else
      var front, line := ps[..|ps| - 1], ps[|ps| - 1];
      InFileOrder(front) +
      if line.Assign? && LoadedRules(front).inRules then RulesFrom(line.key, line.val) else []
  }

  function Reversed<T>(s: seq<T>): (r: seq<T>)
    ensures |r| == |s| && forall i :: 0 <= i < |s| ==> r[i] == s[|s| - 1 - i]
  {
    seq(|s|, i requires 0 <= i < |s| => s[|s| - 1 - i])
  }

  lemma ReversedAppend<T>(a: seq<T>, b: seq<T>)
    ensures Reversed(a + b) == Reversed(b) + Reversed(a)
  {
  }

  lemma NothingReversed<T>()
    ensures Reversed<T>([]) == []
  {
  }

  lemma FewReversed<T>(s: seq<T>)
    requires |s| <= 1
    ensures Reversed(s) == s
  {
  }

  lemma {:induction false} LoadedReversed(ps: seq<Line>)
    ensures LoadedRules(ps).rules == Reversed(InFileOrder(ps))
  {
    hide RulesFrom, Reversed;
    if |ps| == 0 {
      NothingReversed<Rule>();
    } else {
      var front, line := ps[..|ps| - 1], ps[|ps| - 1];
      LoadedReversed(front);
      var more := if line.Assign? && LoadedRules(front).inRules then RulesFrom(line.key, line.val) else [];
      assert LoadedRules(ps).rules == more + LoadedRules(front).rules;
      assert InFileOrder(ps) == InFileOrder(front) + more;
      ReversedAppend(InFileOrder(front), more);
      FewReversed(more);
    }
  }

  lemma RulesFromY(key: string, val: string)
    ensures forall u :: u in RulesFrom(key, val) ==> u.y == 0
  {
    hide Tokens, RuleOf;
    TokensKeepY(Tokens(val));
  }

  /** Every rule's vertical position is 0, whatever the file says: the comma of `pos:x,y` already ended
      the token, so the second number is never read. */
  lemma {:induction false} PosLosesY(ps: seq<Line>)
    ensures forall u :: u in LoadedRules(ps).rules ==> u.y == 0
  {
    if |ps| > 0 {
      hide RulesFrom;
      PosLosesY(ps[..|ps| - 1]);
      var line := ps[|ps| - 1];
      if line.Assign? {
        RulesFromY(line.key, line.val);
      }
    }
  }

  /** A rule applies to a window when each pattern it has matches; `fn` is `fnmatch`. */
  predicate Matches(fn: (string, string) -> bool, u: Rule, appId: string, title: string) {
    (u.appId == "" || fn(u.appId, appId)) && (u.title == "" || fn(u.title, title))
  }

  /** The selection loop of `kum_rules_apply`: the position of the first rule that matches, or -1. */
  method SelectRule(rules: seq<Rule>, fn: (string, string) -> bool, appId: string, title: string) returns (k: int)
    ensures -1 <= k < |rules| && (k >= 0 ==> Matches(fn, rules[k], appId, title))
    ensures forall i :: 0 <= i < (if k == -1 then |rules| else k) ==> !Matches(fn, rules[i], appId, title)
  {
    k := 0;
    while k < |rules|
      invariant 0 <= k <= |rules| && forall i :: 0 <= i < k ==> !Matches(fn, rules[i], appId, title)
    {
      var u := rules[k];
      var ma := u.appId == "" || fn(u.appId, appId);
      var mt := u.title == "" || fn(u.title, title);
      if ma && mt {
        return;
      }
      k := k + 1;
    }
    return -1;
  }

  /** Rules are put at the head of the list, so the first one in the list that matches, which is the one
      selected, is the last one in the file that does. */
  lemma LastMatchWins(ps: seq<Line>, fn: (string, string) -> bool, appId: string, title: string, at: nat)
    requires at < |LoadedRules(ps).rules| && Matches(fn, LoadedRules(ps).rules[at], appId, title)
    requires forall i :: 0 <= i < at ==> !Matches(fn, LoadedRules(ps).rules[i], appId, title)
    ensures var file := InFileOrder(ps); var k := |file| - 1 - at;
      && 0 <= k < |file| && file[k] == LoadedRules(ps).rules[at]
      && forall i :: k < i < |file| ==> !Matches(fn, file[i], appId, title)
  {
    LoadedReversed(ps);
    hide InFileOrder, LoadedRules, Matches;
    var file, list := InFileOrder(ps), LoadedRules(ps).rules;
    forall i | |file| - 1 - at < i < |file|
      ensures !Matches(fn, file[i], appId, title)
    {
      assert list[|file| - 1 - i] == file[i];
    }
  }

  /** The first rule of the file that matches a window is the one selected exactly when no later one
      matches it; `at` is the position the selection loop stops at. */
  lemma FirstMatchWinsIff(ps: seq<Line>, fn: (string, string) -> bool, appId: string, title: string, at: nat, first: nat)
    requires at < |LoadedRules(ps).rules| && Matches(fn, LoadedRules(ps).rules[at], appId, title)
    requires forall i :: 0 <= i < at ==> !Matches(fn, LoadedRules(ps).rules[i], appId, title)
    requires first < |InFileOrder(ps)| && Matches(fn, InFileOrder(ps)[first], appId, title)
    requires forall i :: 0 <= i < first ==> !Matches(fn, InFileOrder(ps)[i], appId, title)
    ensures |InFileOrder(ps)| - 1 - at == first <==>
      forall i :: first < i < |InFileOrder(ps)| ==> !Matches(fn, InFileOrder(ps)[i], appId, title)
  {
    LastMatchWins(ps, fn, appId, title, at);
    hide InFileOrder, LoadedRules, Matches;
  }

  /** A word that trimming and tokenizing leave alone. */
  predicate Word(s: string) {
    |s| > 0 && !IsSpace(s[0]) && !IsSpace(s[|s| - 1]) && ',' !in s && ':' !in s
  }

  lemma TrimmedWord(s: string)
    requires |s| > 0 && !IsSpace(s[0]) && !IsSpace(s[|s| - 1])
    ensures Trimmed(s) == s
  {
  }

  lemma TokensStep(s: string)
    requires |s| > 0
    ensures var t := Upto(s, ',');
      Tokens(s) == (if |t| > 0 then [t] else []) + if |t| == |s| then [] else Tokens(s[|t| + 1..])
  {
  }

  lemma RuleOfMore(tokens: seq<string>, t: string)
    ensures RuleOf(tokens + [t]) == ApplyToken(RuleOf(tokens), t)
  {
    assert (tokens + [t])[..|tokens|] == tokens;
  }

  lemma NoTokens()
    ensures Tokens("") == [] && RuleOf([]) == NO_RULE
  {
  }

  lemma OneToken(t: string)
    requires |t| > 0 && ',' !in t
    ensures RuleOf(Tokens(t)) == ApplyToken(NO_RULE, t)
  {
    hide Tokens, RuleOf, ApplyToken, Upto;
    UptoFirst(t, ',', "");
    assert t + "" == t;
    TokensStep(t);
    NoTokens();
    RuleOfMore([], t);
    assert [t] + [] == [t] && [] + [t] == [t];
  }

  /** A token with one key and its value. */
  lemma KeyAndValue(k: string, v: string)
    requires Word(k) && Word(v)
    ensures var t := k + ":" + v;
      ':' in t && Trimmed(t) == t && Upto(t, ':') == k && Trimmed(k) == k && Trimmed(t[|k| + 1..]) == v
  {
    hide Upto, Trimmed;
    var t := k + ":" + v;
    TrimmedWord(t);
    TrimmedWord(k);
    TrimmedWord(v);
    assert t == k + (":" + v) && t[|k| + 1..] == v;
    UptoFirst(k, ':', ":" + v);
  }

  lemma KeyNames()
    ensures Word("app_id") && Word("title") && "app_id" != "title"
  {
  }

  lemma WordFacts(v: string)
    requires Word(v)
    ensures |v| > 0 && ',' !in v
  {
  }

  lemma AppIdToken(v: string)
    requires Word(v) && |v| <= PATTERN_LEN
    ensures ApplyToken(NO_RULE, "app_id" + ":" + v) == NO_RULE.(appId := v)
  {
    hide Trimmed, Upto, Word;
    KeyNames();
    KeyAndValue("app_id", v);
  }

  lemma NoComma(k: string, v: string)
    requires Word(k) && Word(v)
    ensures |k + ":" + v| > 0 && ',' !in k + ":" + v
  {
  }

  lemma AppIdRule(v: string)
    requires Word(v) && |v| <= PATTERN_LEN
    ensures RulesFrom("rule", "app_id" + ":" + v) == [NO_RULE.(appId := v)]
  {
    hide Tokens, RuleOf, ApplyToken, Word;
    AppIdToken(v);
    KeyNames();
    NoComma("app_id", v);
    OneToken("app_id" + ":" + v);
    WordFacts(v);
  }

  lemma TitleRule(v: string)
    requires Word(v) && |v| <= PATTERN_LEN
    ensures RulesFrom("rule", "title" + ":" + v) == [NO_RULE.(title := v)]
  {
    hide Tokens, RuleOf, Trimmed, Upto, Word;
    KeyNames();
    KeyAndValue("title", v);
    WordFacts(v);
    OneToken("title" + ":" + v);
  }

  function PatternRules(appId: string, title: string): seq<Line> {
    [Header("[rules]"), Assign("rule", "app_id" + ":" + appId), Assign("rule", "title" + ":" + title)]
  }

  lemma OneMoreLine(front: seq<Line>, line: Line)
    ensures LoadedRules(front + [line]) == SteppedRules(LoadedRules(front), line)
    ensures InFileOrder(front + [line]) ==
      InFileOrder(front) + if line.Assign? && LoadedRules(front).inRules then RulesFrom(line.key, line.val) else []
  {
    hide RulesFrom, SteppedRules;
    assert (front + [line])[..|front|] == front;
  }

  lemma NoRulesYet()
    ensures LoadedRules([]) == RuleReader(false, []) && InFileOrder([]) == []
  {
  }

  lemma TwoRulesLoaded(first: Line, second: Line, u: Rule, v: Rule)
    requires first.Assign? && RulesFrom(first.key, first.val) == [u]
    requires second.Assign? && RulesFrom(second.key, second.val) == [v]
    ensures InFileOrder([Header("[rules]"), first, second]) == [u, v]
    ensures LoadedRules([Header("[rules]"), first, second]).rules == [v, u]
  {
    NoRulesYet();
    hide RulesFrom, InFileOrder, LoadedRules;
    var ps := [Header("[rules]"), first, second];
    OneMoreLine([], ps[0]);
    OneMoreLine(ps[..1], first);
    OneMoreLine(ps[..2], second);
    assert [] + [ps[0]] == ps[..1] && ps[..1] + [first] == ps[..2] && ps[..2] + [second] == ps;
  }

  lemma PatternRulesLoaded(a: string, b: string)
    requires Word(a) && Word(b) && |a| <= PATTERN_LEN && |b| <= PATTERN_LEN
    ensures InFileOrder(PatternRules(a, b)) == [NO_RULE.(appId := a), NO_RULE.(title := b)]
    ensures LoadedRules(PatternRules(a, b)).rules == [NO_RULE.(title := b), NO_RULE.(appId := a)]
  {
    hide RulesFrom, Word, InFileOrder, LoadedRules;
    AppIdRule(a);
    TitleRule(b);
    TwoRulesLoaded(PatternRules(a, b)[1], PatternRules(a, b)[2], NO_RULE.(appId := a), NO_RULE.(title := b));
  }

  lemma DecimalWord(n: int)
    ensures Word(Decimal(n)) && ',' !in Decimal(n) && ':' !in Decimal(n)
  {
  }

  /** The remaining keys of a rule, in the order they are compared. */
  lemma OtherNames()
    ensures Word("workspace") && Word("floating") && Word("fullscreen") && Word("size")
    ensures "workspace" != "app_id" && "workspace" != "title"
    ensures "floating" !in ["app_id", "title", "workspace"]
    ensures "fullscreen" !in ["app_id", "title", "workspace", "floating"]
    ensures "size" !in ["app_id", "title", "workspace", "floating", "fullscreen"]
  {
    assert |"workspace"| == 9 && |"floating"| == 8 && |"fullscreen"| == 10 && |"size"| == 4;
    assert |"app_id"| == 6 && |"title"| == 5;
  }

  /** `workspace:n` stands for the workspace with index n - 1. */
  lemma WorkspaceToken(u: Rule, n: int)
    ensures ApplyToken(u, "workspace" + ":" + Decimal(n)) == u.(workspace := n - 1)
  {
    hide Trimmed, Upto, Word, Number, Decimal;
    OtherNames();
    DecimalWord(n);
    KeyAndValue("workspace", Decimal(n));
    NumberRoundTrip(n, "");
    assert Decimal(n) + "" == Decimal(n);
  }

  /** A rule that names neither an application nor a title is dropped. */
  lemma PatternNeeded(n: int)
    ensures RulesFrom("rule", "workspace" + ":" + Decimal(n)) == []
  {
    hide Tokens, RuleOf, ApplyToken, Decimal, Word;
    OtherNames();
    DecimalWord(n);
    NoComma("workspace", Decimal(n));
    OneToken("workspace" + ":" + Decimal(n));
    WorkspaceToken(NO_RULE, n);
  }

  /** Two rules, one naming the window's application and one its title: both match, and the second one of
      the file is the one selected. */
  lemma FirstMatchLoses(a: string, b: string, fn: (string, string) -> bool)
    requires Word(a) && Word(b) && |a| <= PATTERN_LEN && |b| <= PATTERN_LEN && fn(a, a) && fn(b, b)
    ensures var ps := PatternRules(a, b); var file := InFileOrder(ps); var list := LoadedRules(ps).rules;
      && |file| == |list| == 2 && Matches(fn, file[0], a, b) && Matches(fn, list[0], a, b)
      && list[0] == file[1] != file[0]
  {
    PatternRulesLoaded(a, b);
  }

  lemma TwoTokens(a: string, rest: string)
    requires |a| > 0 && ',' !in a
    ensures Tokens(a + "," + rest) == [a] + Tokens(rest)
  {
    hide Tokens, Upto;
    var s := a + "," + rest;
    assert s == a + ("," + rest) && s[|a| + 1..] == rest;
    UptoFirst(a, ',', "," + rest);
    TokensStep(s);
  }

  lemma LastToken(a: string)
    requires |a| > 0 && ',' !in a
    ensures Tokens(a) == [a]
  {
    hide Tokens, Upto;
    UptoFirst(a, ',', "");
    assert a + "" == a;
    TokensStep(a);
  }

  lemma ThreeTokens(a: string, b: string, c: string)
    requires |a| > 0 && |b| > 0 && |c| > 0 && ',' !in a && ',' !in b && ',' !in c
    ensures RuleOf(Tokens(a + "," + (b + "," + c))) == ApplyToken(ApplyToken(ApplyToken(NO_RULE, a), b), c)
  {
    hide Tokens, RuleOf, ApplyToken;
    TwoTokens(a, b + "," + c);
    TwoTokens(b, c);
    LastToken(c);
    NoTokens();
    RuleOfMore([], a);
    RuleOfMore([a], b);
    RuleOfMore([a, b], c);
    assert [a] + ([b] + [c]) == [a, b] + [c] && [a] + [b] == [a, b] && [] + [a] == [a];
  }

  lemma DecimalAlone(n: int)
    ensures ScannedPair(Decimal(n), ',') == (Some(n), None)
  {
    hide Scanned, Decimal, Word;
    DecimalWord(n);
    NumberRoundTrip(n, "");
    assert Decimal(n) + "" == Decimal(n);
    OneNumber(Decimal(n));
  }

  lemma PosName()
    ensures Word("pos") && "pos" != "app_id" && "pos" != "title" && "pos" != "workspace"
    ensures "pos" != "floating" && "pos" != "fullscreen" && "pos" != "size"
  {
    assert "pos"[0] == 'p' && "title"[0] == 't' && "size"[0] == 's' && "floating"[0] == 'f';
  }

  lemma PosToken(u: Rule, x: int)
    ensures ApplyToken(u, "pos" + ":" + Decimal(x)) == u.(x := x)
  {
    hide Trimmed, Upto, Word, ScannedPair, Decimal;
    PosName();
    DecimalWord(x);
    KeyAndValue("pos", Decimal(x));
    DecimalAlone(x);
  }

  /** `floating:v` and `fullscreen:v` switch the flag on if `v` is `true`, and off otherwise. */
  lemma FlagTokens(u: Rule, v: string)
    requires Word(v)
    ensures ApplyToken(u, "floating" + ":" + v) == u.(floating := v == "true")
    ensures ApplyToken(u, "fullscreen" + ":" + v) == u.(fullscreen := v == "true")
  {
    hide Trimmed, Upto, Word;
    OtherNames();
    KeyAndValue("floating", v);
    KeyAndValue("fullscreen", v);
  }

  lemma SizeWord(w: int, h: int)
    ensures Word(Decimal(w) + "x" + Decimal(h))
  {
  }

  lemma JoinedByX(a: string, b: string)
    ensures a + "x" + b == a + (['x'] + b)
  {
  }

  lemma SizeScanned(w: int, h: int)
    ensures ScannedPair(Decimal(w) + "x" + Decimal(h), 'x') == (Some(w), Some(h))
  {
    hide Decimal, ScannedPair;
    PairRoundTrip(w, 'x', h);
    JoinedByX(Decimal(w), Decimal(h));
  }

  /** `size:wxh` keeps both numbers. */
  lemma SizeToken(u: Rule, w: int, h: int)
    ensures ApplyToken(u, "size" + ":" + (Decimal(w) + "x" + Decimal(h))) == u.(w := w, h := h)
  {
    hide Trimmed, Upto, Word, ScannedPair, Decimal;
    OtherNames();
    SizeWord(w, h);
    KeyAndValue("size", Decimal(w) + "x" + Decimal(h));
    SizeScanned(w, h);
  }

  lemma StrayToken(u: Rule, token: string)
    requires ':' !in token
    ensures ApplyToken(u, token) == u
  {
    hide Upto;
    assert ':' !in Trimmed(token);
  }

  /** `app_id:v,pos:x,y`: a rule that is to put an application's windows at a position. */
  function PosRule(v: string, x: int, y: int): string {
    "app_id" + ":" + v + "," + ("pos" + ":" + Decimal(x) + "," + Decimal(y))
  }

  /** For every position: the first number is kept and the second one is not. */
  lemma PosDropsY(v: string, x: int, y: int)
    requires Word(v) && |v| <= PATTERN_LEN
    ensures RulesFrom("rule", PosRule(v, x, y)) == [NO_RULE.(appId := v, x := x)]
  {
    hide Tokens, RuleOf, ApplyToken, Decimal, Word;
    DecimalWord(x);
    DecimalWord(y);
    KeyNames();
    PosName();
    WordFacts(v);
    WordFacts(Decimal(y));
    NoComma("app_id", v);
    NoComma("pos", Decimal(x));
    ThreeTokens("app_id" + ":" + v, "pos" + ":" + Decimal(x), Decimal(y));
    AppIdToken(v);
    PosToken(NO_RULE.(appId := v), x);
    StrayToken(NO_RULE.(appId := v, x := x), Decimal(y));
  }

  // ---------------------------------------------------------------- the reading loops

  method FirstKept(s: string) returns (i: nat)
    ensures i <= |s| && s[i..] == SkipSpace(s)
  {
    i := 0;
    while i < |s| && IsSpace(s[i])
      invariant i <= |s| && SkipSpace(s) == SkipSpace(s[i..])
    {
      assert s[i..][1..] == s[i + 1..];
      i := i + 1;
    }
  }

  method LastKept(s: string) returns (e: nat)
    ensures e <= |s| && s[..e] == DropSpace(s)
  {
    e := |s|;
    assert s[..e] == s;
    while e > 0 && IsSpace(s[e - 1])
      invariant e <= |s| && DropSpace(s) == DropSpace(s[..e])
    {
      assert s[..e][..e - 1] == s[..e - 1];
      e := e - 1;
    }
  }

  /** `trim`. */
  method Trim(s: string) returns (r: string)
    ensures r == Trimmed(s)
  {
    hide SkipSpace, DropSpace;
    var i := FirstKept(s);
    var e := LastKept(s[i..]);
    r := s[i..][..e];
  }

  /** `strchr`: the position of the first `c`, or -1. */
  method Find(s: string, c: char) returns (k: int)
    ensures if c in s then k == |Upto(s, c)| else k == -1
    ensures -1 <= k < |s|
  {
    k := 0;
    while k < |s|
      invariant 0 <= k <= |s| && c !in s[..k] && |Upto(s, c)| == k + |Upto(s[k..], c)|
    {
      assert s[k..][1..] == s[k + 1..];
      if s[k] == c {
        return;
      }
      k := k + 1;
    }
    assert s[..k] == s;
    return -1;
  }

  /** The first half of both loops' bodies. */
  method Look(piece: string) returns (line: Line)
    ensures line == Parsed(piece)
  {
    hide Trimmed, Upto;
    var s := Trim(Upto(piece, '\0'));
    if |s| == 0 || s[0] == '#' {
      return Skip;
    }
    if s[0] == '[' {
      return Header(s);
    }
    var eq := Find(s, '=');
    if eq == -1 {
      return Junk;
    }
    assert s[..eq] == Upto(s, '=');
    var key := Trim(s[..eq]);
    var val := Trim(s[eq + 1..]);
    line := Assign(key, val);
  }

  function ParsedAll(pieces: seq<string>): (r: seq<Line>)
    ensures |r| == |pieces|
  {
    seq(|pieces|, i requires 0 <= i < |pieces| => Parsed(pieces[i]))
  }

  /** The name of the output a header is about. */
  method OutName(s: string) returns (name: string)
    requires SectionOf(s) == Out
    ensures "[output " <= s && name == OutputName(s)
  {
    name := OutputName(s);
  }

  /** `kum_config_load` on the pieces of the file. */
  method LoadConfig(pieces: seq<string>) returns (conf: Conf)
    ensures conf == Loaded(ParsedAll(pieces)).conf
  {
    var section := Global;
    var outIdx := -1;
    conf := Conf([], [], [], []);
    ghost var ps := ParsedAll(pieces);
    hide Parsed, SectionOf, OutputName, ApplyGlobal, ApplyOutput;
    assert ps[..0] == [];
    for i := 0 to |pieces|
      invariant Reader(section, outIdx, conf) == Loaded(ps[..i])
    {
      assert ps[..i + 1][..i] == ps[..i] && ps[..i + 1][i] == ps[i];
      var line := Look(pieces[i]);
      match line {
        case Skip =>
        case Junk =>
        case Header(s) =>
          section := SectionOf(s);
          outIdx := -1;
          if section == Out && |conf.outputs| < OUTPUTS_MAX {
            outIdx := |conf.outputs|;
            var name := OutName(s);
            conf := conf.(outputs := conf.outputs + [OutputConf(name, false, [])]);
          }
        case Assign(key, val) =>
          if section == Global {
            conf := ApplyGlobal(conf, key, val);
          } else if section == Input {
            conf := conf.(inputs := conf.inputs + [(key, val)]);
          } else if section == Out && outIdx >= 0 {
            conf := conf.(outputs := conf.outputs[outIdx := ApplyOutput(conf.outputs[outIdx], key, val)]);
          }
      }
    }
    assert ps[..|pieces|] == ps;
  }

  method SetField(u: Rule, k: string, v: string) returns (r: Rule)
    ensures r == FieldSet(u, k, v)
  {
    hide ScannedPair, Clipped, Atoi;
    r := u;
    if k == "app_id" {
      r := r.(appId := Clipped(v, PATTERN_LEN));
    } else if k == "title" {
      r := r.(title := Clipped(v, PATTERN_LEN));
    } else if k == "workspace" {
      r := r.(workspace := Atoi(v) - 1);
    } else if k == "floating" {
      r := r.(floating := v == "true");
    } else if k == "fullscreen" {
      r := r.(fullscreen := v == "true");
    } else if k == "size" {
      var (w, h) := ScannedPair(v, 'x');
      r := r.(w := OrElse(w, r.w), h := OrElse(h, r.h));
    } else if k == "pos" {
      var (x, y) := ScannedPair(v, ',');
      r := r.(x := OrElse(x, r.x), y := OrElse(y, r.y));
    }
  }

  /** The body of the token loop. */
  method ReadToken(u: Rule, token: string) returns (r: Rule)
    ensures r == ApplyToken(u, token)
  {
    hide Trimmed, Upto, FieldSet;
    r := u;
    var t := Trim(token);
    var sep := Find(t, ':');
    if sep == -1 {
      return;
    }
    assert t[..sep] == Upto(t, ':');
    var k := Trim(t[..sep]);
    var v := Trim(t[sep + 1..]);
    r := SetField(u, k, v);
  }
  lemma EndsAt(s: string, k: int)
    requires if ',' in s then k == |Upto(s, ',')| else k == -1
    ensures Upto(s, ',') == if k == -1 then s else s[..k]
  {
    if k == -1 {
      UptoFirst(s, ',', "");
      assert s + "" == s;
    }
  }

  /** The token loop of `kum_rules_load`, with the `strtok` that drives it. */
  method ReadRule(val: string) returns (u: Rule)
    ensures u == RuleOf(Tokens(val))
  {
    hide Tokens, ApplyToken, RuleOf, Upto;
    u := NO_RULE;
    var rest := val;
    ghost var done := [];
    NoTokens();
    while |rest| > 0
      invariant Tokens(val) == done + Tokens(rest) && u == RuleOf(done)
      decreases |rest|
    {
      TokensStep(rest);
      var k := Find(rest, ',');
      var t := if k == -1 then rest else rest[..k];
      assert t == Upto(rest, ',') by { EndsAt(rest, k); }
      if |t| > 0 {
        u := ReadToken(u, t);
        RuleOfMore(done, t);
        done := done + [t];
      }
      rest := if k == -1 then "" else rest[k + 1..];
    }
    assert done + [] == done;
  }

  /** `kum_rules_load` on the pieces of the file. */
  method LoadRules(pieces: seq<string>) returns (rules: seq<Rule>)
    ensures rules == LoadedRules(ParsedAll(pieces)).rules
  {
    var inRules := false;
    rules := [];
    ghost var ps := ParsedAll(pieces);
    hide Parsed, RuleOf, Tokens;
    assert ps[..0] == [];
    for i := 0 to |pieces|
      invariant RuleReader(inRules, rules) == LoadedRules(ps[..i])
    {
      assert ps[..i + 1][..i] == ps[..i] && ps[..i + 1][i] == ps[i];
      var line := Look(pieces[i]);
      if line.Header? {
        inRules := line.text == "[rules]";
      } else if inRules && line.Assign? {
        if line.key == "rule" {
          var u := ReadRule(line.val);
          if |u.appId| > 0 || |u.title| > 0 {
            rules := [u] + rules;
          }
        }
      }
    }
    assert ps[..|pieces|] == ps;
  }
}
