/**
 * The chat style language of the relay server (`server/utils/format.py`):
 * the `ChatFormatting` table of format marks and colours, a message part's
 * `desc text` split, the style mapping and ANSI string `parse_style` builds
 * from the marks in `desc`, the console rendering, and the Minecraft
 * raw-JSON component list `FormatMessage` assembles, where a click or hover
 * mark attaches its event to the preceding component.
 */
module StyleFormat {
  import opened Wrappers
  import opened PyStr
  import opened StrDict

  // ----- the formatting table -----

  datatype ChatFormatting =
    | Obfuscated | Bold | Strikethrough | Underline | Italic
    | Black | DarkBlue | DarkGreen | DarkAqua | DarkRed | DarkPurple | Gold | Gray
    | DarkGray | Blue | Green | Aqua | Red | LightPurple | Yellow | White

  /** The `§` code. */
  function Code(f: ChatFormatting): char
  {
    match f
    case Obfuscated => 'k' case Bold => 'l' case Strikethrough => 'm' case Underline => 'n' case Italic => 'o'
    case Black => '0' case DarkBlue => '1' case DarkGreen => '2' case DarkAqua => '3'
    case DarkRed => '4' case DarkPurple => '5' case Gold => '6' case Gray => '7'
    case DarkGray => '8' case Blue => '9' case Green => 'a' case Aqua => 'b'
    case Red => 'c' case LightPurple => 'd' case Yellow => 'e' case White => 'f'
  }

  /** The mark letter of the style language. */
  function Mark(f: ChatFormatting): char
  {
    match f
    case Obfuscated => 'o' case Bold => 'b' case Strikethrough => 's' case Underline => 'u' case Italic => 'i'
    case Black => 'k' case DarkBlue => 'v' case DarkGreen => 'e' case DarkAqua => 'q'
    case DarkRed => 'n' case DarkPurple => 'p' case Gold => 'd' case Gray => 'g'
    case DarkGray => 'f' case Blue => 't' case Green => 'l' case Aqua => 'c'
    case Red => 'r' case LightPurple => 'm' case Yellow => 'y' case White => 'w'
  }

  /** The RGB value of a colour; formats have none. */
  function Integer(f: ChatFormatting): Option<int>
  {
    match f
    case Obfuscated => None case Bold => None case Strikethrough => None case Underline => None case Italic => None
    case Black => Some(0x000000) case DarkBlue => Some(0x0000AA) case DarkGreen => Some(0x00AA00)
    case DarkAqua => Some(0x00AAAA) case DarkRed => Some(0xAA0000) case DarkPurple => Some(0xAA00AA)
    case Gold => Some(0xFFAA00) case Gray => Some(0xAAAAAA) case DarkGray => Some(0x555555)
    case Blue => Some(0x5555FF) case Green => Some(0x55FF55) case Aqua => Some(0x55FFFF)
    case Red => Some(0xFF5555) case LightPurple => Some(0xFF55FF) case Yellow => Some(0xFFFF55)
    case White => Some(0xFFFFFF)
  }

  /** The dash-separated SGR codes of the member's ANSI sequence. */
  function AnsiSpec(f: ChatFormatting): string
  {
    match f
    case Obfuscated => "8" case Bold => "8" case Strikethrough => "8" case Underline => "8" case Italic => "8"
    case Black => "0-30" case DarkBlue => "0-34" case DarkGreen => "0-32" case DarkAqua => "0-36"
    case DarkRed => "0-31" case DarkPurple => "0-35" case Gold => "0-33" case Gray => "0-37"
    case DarkGray => "0-90" case Blue => "0-94" case Green => "0-92" case Aqua => "0-96"
    case Red => "0-91" case LightPurple => "0-95" case Yellow => "0-93" case White => "0-97"
  }

  /** `name.lower()` */
  function LowerName(f: ChatFormatting): string
  {
    match f
    case Obfuscated => "obfuscated" case Bold => "bold" case Strikethrough => "strikethrough"
    case Underline => "underline" case Italic => "italic"
    case Black => "black" case DarkBlue => "dark_blue" case DarkGreen => "dark_green" case DarkAqua => "dark_aqua"
    case DarkRed => "dark_red" case DarkPurple => "dark_purple" case Gold => "gold" case Gray => "gray"
    case DarkGray => "dark_gray" case Blue => "blue" case Green => "green" case Aqua => "aqua"
    case Red => "red" case LightPurple => "light_purple" case Yellow => "yellow" case White => "white"
  }

  predicate IsFormat(f: ChatFormatting) { Integer(f).None? }

  /** `color`: the RGB value, or -1 for a format. */
  function Color(f: ChatFormatting): (c: int)
    ensures IsFormat(f) <==> c == -1
  {
    if Integer(f).None? then -1 else Integer(f).value
  }

  const Esc: char := '\U{1b}'

  /** `"\033[" + ";".join(spec.split("-")) + "m"`, or `""` for an empty spec. */
  function AnsiOf(spec: string): string
  {
    if spec == "" then "" else [Esc] + "[" + Join(";", Split(spec, '-')) + "m"
  }

  /** The ANSI sequence is the spec with every dash turned into a semicolon, between `ESC [` and `m`. */
  lemma AnsiDashesToSemicolons(spec: string)
    requires spec != ""
    ensures AnsiOf(spec) == [Esc] + "[" + ReplaceChar(spec, '-', ";") + "m"
  {
    JoinSplit(spec, '-');
    SplitPiecesAvoidSep(spec, '-');
    ReplaceJoinSeparator(Split(spec, '-'), '-', ';');
  }

  function Ansi(f: ChatFormatting): string { AnsiOf(AnsiSpec(f)) }

  /** `str(f)`: the section sign and the code. */
  function Section(f: ChatFormatting): string { ['§', Code(f)] }

  /** `ChatFormatting.formats()`, in declaration order. */
  function Formats(): seq<ChatFormatting>
  {
    [Obfuscated, Bold, Strikethrough, Underline, Italic]
  }

  /** `ChatFormatting.colors()`, in declaration order. */
  function Colors(): seq<ChatFormatting>
  {
    [Black, DarkBlue, DarkGreen, DarkAqua, DarkRed, DarkPurple, Gold, Gray,
     DarkGray, Blue, Green, Aqua, Red, LightPurple, Yellow, White]
  }

  /** The two lists split the members by `is_format`. */
  lemma FormatsAndColors(f: ChatFormatting)
    ensures f in Formats() <==> IsFormat(f)
    ensures f in Colors() <==> !IsFormat(f)
  {
    if IsFormat(f) {
      FormatListed(f);
    } else {
      ColorListed(f);
    }
  }

  /** Each format is in the format list. */
  lemma FormatListed(f: ChatFormatting)
    requires IsFormat(f)
    ensures f in Formats() && f !in Colors()
  {
  }

  /** Each colour is in the colour list. */
  lemma ColorListed(f: ChatFormatting)
    requires !IsFormat(f)
    ensures f in Colors() && f !in Formats()
  {
  }

  /** No two formats share a name, and none is named `color`. */
  lemma FormatNamesDistinct()
    ensures forall i, j :: 0 <= i < j < |Formats()| ==> LowerName(Formats()[i]) != LowerName(Formats()[j])
    ensures forall i :: 0 <= i < |Formats()| ==> LowerName(Formats()[i]) != "color"
  {
  }

  // ----- parse_style -----

  /** A JSON value of a text component. */
  datatype JVal = JStr(s: string) | JBool(b: bool) | JObj(entries: seq<(string, JVal)>)

  /** The style entries and ANSI text of the formats among `fs` whose mark occurs in `desc`, in order. */
  function FormatPart(desc: string, fs: seq<ChatFormatting>): (seq<(string, JVal)>, string)
  {
    if fs == [] then ([], "")
    else
      var prev := FormatPart(desc, fs[..|fs| - 1]);
      var f := fs[|fs| - 1];
      if Mark(f) in desc then (Put(prev.0, LowerName(f), JBool(true)), prev.1 + Ansi(f)) else prev
  }

  /** The first of `cs` whose mark occurs in `desc`. */
  function FirstColor(desc: string, cs: seq<ChatFormatting>): (r: Option<nat>)
    ensures r.Some? ==> r.value < |cs| && Mark(cs[r.value]) in desc
    ensures r.Some? ==> forall j :: 0 <= j < r.value ==> Mark(cs[j]) !in desc
    ensures r.None? ==> forall j :: 0 <= j < |cs| ==> Mark(cs[j]) !in desc
  {
    if cs == [] then None
    else if Mark(cs[0]) in desc then Some(0)
    else
      var rest := FirstColor(desc, cs[1..]);
      if rest.None? then None else Some(rest.value + 1)
  }

  /** `parse_style(desc)`: the style mapping and the ANSI string. */
  function StyleSpec(desc: string): (seq<(string, JVal)>, string)
  {
    var fs := FormatPart(desc, Formats());
    var c := FirstColor(desc, Colors());
    if c.None? then fs
    else
      var color := Colors()[c.value];
      (Put(fs.0, "color", JStr(LowerName(color))), fs.1 + Ansi(color))
  }

  /** With distinct names, each format is `True` exactly when its mark occurs, and no other key is set. */
  lemma FormatPartGet(desc: string, fs: seq<ChatFormatting>, x: string)
    requires forall i, j :: 0 <= i < j < |fs| ==> LowerName(fs[i]) != LowerName(fs[j])
    ensures forall i :: 0 <= i < |fs| && LowerName(fs[i]) == x ==>
      Get(FormatPart(desc, fs).0, x) == (if Mark(fs[i]) in desc then Some(JBool(true)) else None)
    ensures (forall i :: 0 <= i < |fs| ==> LowerName(fs[i]) != x) ==> Get(FormatPart(desc, fs).0, x) == None
  {
    forall i | 0 <= i < |fs| && LowerName(fs[i]) == x
      ensures Get(FormatPart(desc, fs).0, x) == (if Mark(fs[i]) in desc then Some(JBool(true)) else None)
    {
      FormatPartGetAt(desc, fs, x, i);
    }
    if forall i :: 0 <= i < |fs| ==> LowerName(fs[i]) != x {
      FormatPartAbsent(desc, fs, x);
    }
  }

  /** The format named `x` is `True` exactly when its mark occurs. */
  lemma {:induction false} FormatPartGetAt(desc: string, fs: seq<ChatFormatting>, x: string, i: nat)
    requires forall i, j :: 0 <= i < j < |fs| ==> LowerName(fs[i]) != LowerName(fs[j])
    requires i < |fs| && LowerName(fs[i]) == x
    ensures Get(FormatPart(desc, fs).0, x) == (if Mark(fs[i]) in desc then Some(JBool(true)) else None)
    decreases |fs|
  {
    var init := fs[..|fs| - 1];
    FormatPartStep(desc, fs, x);
    assert forall k :: 0 <= k < |init| ==> init[k] == fs[k];
    if i == |fs| - 1 {
      FormatPartAbsent(desc, init, x);
    } else {
      assert LowerName(fs[|fs| - 1]) != x;
      FormatPartGetAt(desc, init, x, i);
    }
  }

  /** A name no format of `fs` has is not a key. */
  lemma {:induction false} FormatPartAbsent(desc: string, fs: seq<ChatFormatting>, x: string)
    requires forall i :: 0 <= i < |fs| ==> LowerName(fs[i]) != x
    ensures Get(FormatPart(desc, fs).0, x) == None
    decreases |fs|
  {
    if fs != [] {
      var init := fs[..|fs| - 1];
      FormatPartStep(desc, fs, x);
      assert forall k :: 0 <= k < |init| ==> init[k] == fs[k];
      FormatPartAbsent(desc, init, x);
    }
  }

  /** The last format of `fs` sets its own name, if its mark occurs, and leaves every other key as before. */
  lemma FormatPartStep(desc: string, fs: seq<ChatFormatting>, x: string)
    requires fs != []
    ensures var f := fs[|fs| - 1];
      Get(FormatPart(desc, fs).0, x) ==
        if Mark(f) in desc && LowerName(f) == x then Some(JBool(true)) else Get(FormatPart(desc, fs[..|fs| - 1]).0, x)
  {
    var f := fs[|fs| - 1];
    if Mark(f) in desc {
      PutGet(FormatPart(desc, fs[..|fs| - 1]).0, LowerName(f), JBool(true), x);
    }
  }

  /**
   * What `parse_style` promises: every format whose mark occurs is `True`;
   * `"color"` is set, once, to the first colour in declaration order whose
   * mark occurs, and is absent when none does.
   */
  lemma StyleMeaning(desc: string)
    ensures forall i :: 0 <= i < |Formats()| ==>
      Get(StyleSpec(desc).0, LowerName(Formats()[i])) == (if Mark(Formats()[i]) in desc then Some(JBool(true)) else None)
    ensures FirstColor(desc, Colors()).None? ==> Get(StyleSpec(desc).0, "color") == None
    ensures FirstColor(desc, Colors()).Some? ==>
      Get(StyleSpec(desc).0, "color") == Some(JStr(LowerName(Colors()[FirstColor(desc, Colors()).value])))
  {
    FormatNamesDistinct();
    var fs := FormatPart(desc, Formats());
    forall i | 0 <= i < |Formats()|
      ensures Get(StyleSpec(desc).0, LowerName(Formats()[i])) == (if Mark(Formats()[i]) in desc then Some(JBool(true)) else None)
    {
      FormatPartGet(desc, Formats(), LowerName(Formats()[i]));
      PutFacts(fs.0, "color", JStr(""));
      if FirstColor(desc, Colors()).Some? {
        PutFacts(fs.0, "color", JStr(LowerName(Colors()[FirstColor(desc, Colors()).value])));
      }
    }
    FormatPartGet(desc, Formats(), "color");
    if FirstColor(desc, Colors()).Some? {
      PutFacts(fs.0, "color", JStr(LowerName(Colors()[FirstColor(desc, Colors()).value])));
    }
  }

  /** `parse_style`: the loop over the formats, then the loop over the colours that stops at the first hit. */
  method ParseStyle(desc: string) returns (style: seq<(string, JVal)>, ansi: string)
    ensures (style, ansi) == StyleSpec(desc)
  {
    style, ansi := [], "";
    var formats := Formats();
    var i := 0;
    while i < |formats|
      invariant 0 <= i <= |formats|
      invariant (style, ansi) == FormatPart(desc, formats[..i])
    {
      assert formats[..i + 1][..i] == formats[..i];
      var f := formats[i];
      if Mark(f) in desc {
        style := Put(style, LowerName(f), JBool(true));
        ansi := ansi + Ansi(f);
      }
      i := i + 1;
    }
    assert formats[..i] == formats;
    var colors := Colors();
    var j := 0;
    while j < |colors|
      invariant 0 <= j <= |colors|
      invariant forall k :: 0 <= k < j ==> Mark(colors[k]) !in desc
      invariant (style, ansi) == FormatPart(desc, formats)
    {
      var c := colors[j];
      if Mark(c) in desc {
        FirstColorIs(desc, colors, j);
        style := Put(style, "color", JStr(LowerName(c)));
        ansi := ansi + Ansi(c);
        return;
      }
      j := j + 1;
    }
  }

  lemma {:induction false} FirstColorIs(desc: string, cs: seq<ChatFormatting>, j: nat)
    requires j < |cs| && Mark(cs[j]) in desc && forall k :: 0 <= k < j ==> Mark(cs[k]) !in desc
    ensures FirstColor(desc, cs) == Some(j)
    decreases j
  {
    if j > 0 {
      assert Mark(cs[0]) !in desc;
      assert forall k :: 0 <= k < j - 1 ==> cs[1..][k] == cs[k + 1];
      FirstColorIs(desc, cs[1..], j - 1);
    }
  }

  // ----- split_desc_text and get_ansi_console -----

  /** `split_desc_text(msg)`: a leading space gets `"w"` prepended; `desc` is up to the first space, `text` the rest. */
  function SplitDescText(msg: string): (string, string)
  {
    var m := if StartsWith(msg, " ") then "w" + msg else msg;
    var parts := Split(m, ' ');
    (parts[0], Join(" ", parts[1..]))
  }

  /** `desc` holds no space; a part starting with a space has `desc` `"w"`. */
  lemma SplitDescFacts(msg: string)
    ensures ' ' !in SplitDescText(msg).0
    ensures StartsWith(msg, " ") ==> SplitDescText(msg) == ("w", Join(" ", Split(msg[1..], ' ')))
  {
    var m := if StartsWith(msg, " ") then "w" + msg else msg;
    SplitPiecesAvoidSep(m, ' ');
    if StartsWith(msg, " ") {
      assert m == "w" + [' '] + msg[1..];
      SplitAfterWord("w", ' ', msg[1..]);
      assert Split(m, ' ')[1..] == Split(msg[1..], ' ');
    }
  }

  /** `desc + " " + text` splits back into `desc` and `text`. */
  lemma SplitDescRoundTrip(desc: string, text: string)
    requires desc != "" && ' ' !in desc
    ensures SplitDescText(desc + " " + text) == (desc, text)
  {
    var m := desc + " " + text;
    assert m[0] == desc[0];
    assert !StartsWith(m, " ");
    assert m == desc + [' '] + text;
    SplitAfterWord(desc, ' ', text);
    JoinSplit(text, ' ');
    assert Split(m, ' ')[1..] == Split(text, ' ');
  }

  /** A part without a space is all `desc`. */
  lemma SplitDescNoSpace(msg: string)
    requires ' ' !in msg
    ensures SplitDescText(msg) == (msg, "")
  {
    assert !StartsWith(msg, " ") by {
      if |msg| >= 1 {
        assert msg[0] != ' ';
      }
    }
    SplitNoSep(msg, ' ');
  }

  const Reset: string := [Esc] + "[0m"

  /** `get_ansi_console(msg)`: the style's ANSI, the text, then the reset sequence. */
  function Console(msg: string): (r: string)
    ensures |r| >= |Reset| && r[|r| - |Reset|..] == Reset
  {
    var (desc, text) := SplitDescText(msg);
    StyleSpec(desc).1 + text + Reset
  }

  /** A desc whose only mark is `w` sets only the colour white. */
  lemma WhiteStyle(desc: string)
    requires forall c :: c in desc ==> c == 'w'
    requires 'w' in desc
    ensures StyleSpec(desc) == ([("color", JStr("white"))], Ansi(White))
  {
    var fs := Formats();
    forall i | 0 <= i < |fs|
      ensures Mark(fs[i]) !in desc
    {
    }
    FormatPartNone(desc, fs);
    var cs := Colors();
    forall k | 0 <= k < 15
      ensures Mark(cs[k]) !in desc
    {
    }
    FirstColorIs(desc, cs, 15);
    assert cs[15] == White;
    var empty: seq<(string, JVal)> := [];
    assert Put(empty, "color", JStr("white")) == [("color", JStr("white"))];
    assert "" + Ansi(White) == Ansi(White);
  }

  /** A part starting with a space is shown in white. */
  lemma LeadingSpaceIsWhite(t: string)
    ensures Console(" " + t) == Ansi(White) + t + Reset
  {
    assert forall c :: c in "w" ==> c == 'w';
    WhiteStyle("w");
    SplitDescFacts(" " + t);
    assert (" " + t)[1..] == t;
    JoinSplit(t, ' ');
  }

  lemma {:induction false} FormatPartNone(desc: string, fs: seq<ChatFormatting>)
    requires forall i :: 0 <= i < |fs| ==> Mark(fs[i]) !in desc
    ensures FormatPart(desc, fs) == ([], "")
    decreases |fs|
  {
    if fs != [] {
      var init := fs[..|fs| - 1];
      assert forall i :: 0 <= i < |init| ==> init[i] == fs[i];
      FormatPartNone(desc, init);
    }
  }

  // ----- FormatMessage -----

  /** A built `FormatMessage`: `ansi`, `mc` and `original_msgs`. */
  datatype Msg = Msg(ansi: string, mc: seq<JVal>, originals: seq<string>)

  /** A constructor argument: a string or a nested message; `repr` is the nested object's default `repr` text. */
  datatype Part = Text(s: string) | Nested(m: Msg, repr: string)

  /** `str(part)`: the text itself, or the nested message's `repr`. */
  function StrOf(part: Part): string { if part.Text? then part.s else part.repr }

  /** The marks `mark_data` knows, in its order. */
  function MarkKeys(): seq<char> { ['?', '!', '^', '@', '&'] }

  /** A mark's event key and action. */
  function MarkEvent(k: char): (string, string)
  {
    match k
    case '?' => ("clickEvent", "suggest_command")
    case '!' => ("clickEvent", "run_command")
    case '^' => ("hoverEvent", "show_text")
    case '@' => ("clickEvent", "open_url")
    case _ => ("clickEvent", "copy_to_clipboard")
  }

  /** The first of the marks, in `mark_data` order, that occurs in `desc`. */
  function FirstMark(desc: string, ks: seq<char>): (r: Option<char>)
    ensures r.Some? ==> r.value in ks && r.value in desc
    ensures r.None? ==> forall j :: 0 <= j < |ks| ==> ks[j] !in desc
  {
    if ks == [] then None
    else if ks[0] in desc then Some(ks[0])
    else FirstMark(desc, ks[1..])
  }

  /** The entry `{event key: {"action": ..., "value": text}}` of a mark. */
  function EventEntry(k: char, text: string): (string, JVal)
  {
    (MarkEvent(k).0, JObj([("action", JStr(MarkEvent(k).1)), ("value", JStr(text))]))
  }

  /** `d.update(entries)` */
  function UpdateAll(d: seq<(string, JVal)>, upd: seq<(string, JVal)>): seq<(string, JVal)>
  {
    if upd == [] then d else Put(UpdateAll(d, upd[..|upd| - 1]), upd[|upd| - 1].0, upd[|upd| - 1].1)
  }

  /** `msg.mc[1:]` */
  function Tail(s: seq<JVal>): seq<JVal>
  {
    if s == [] then [] else s[1..]
  }

  /** The component list gets a mark's event on its last dict, or a new `{"text": text, **style}` component. */
  function AddText(mc: seq<JVal>, desc: string, text: string, noMark: bool): (r: seq<JVal>)
    ensures |mc| <= |r| <= |mc| + 1 && |r| >= 1
    ensures forall i :: 0 <= i < |mc| - 1 ==> r[i] == mc[i]
    ensures r[|r| - 1].JObj?
    ensures noMark ==> r == mc + [r[|r| - 1]]
  {
    var style := StyleSpec(desc).0;
    var key := if noMark then None else FirstMark(desc, MarkKeys());
    if key.Some? && |mc| > 0 && mc[|mc| - 1].JObj? then
      mc[..|mc| - 1] + [JObj(UpdateAll(mc[|mc| - 1].entries, [EventEntry(key.value, text)] + style))]
    else mc + [JObj([("text", JStr(text))] + style)]
  }

  /** What one constructor argument adds. With `no_mark` it is first turned into the text `" " + str(part)`. */
  function Step(acc: Msg, part: Part, noMark: bool): (r: Msg)
    ensures |acc.ansi| <= |r.ansi| && r.ansi[..|acc.ansi|] == acc.ansi
    ensures |acc.originals| <= |r.originals| && r.originals[..|acc.originals|] == acc.originals
    ensures noMark ==> |r.originals| == |acc.originals| + 1 && |r.mc| == |acc.mc| + 1
  {
    var p := if noMark then Text(" " + StrOf(part)) else part;
    match p
    case Nested(m, _) => Msg(acc.ansi + m.ansi, acc.mc + Tail(m.mc), acc.originals + m.originals)
    case Text(s) =>
      var (desc, text) := SplitDescText(s);
      Msg(acc.ansi + Console(s), AddText(acc.mc, desc, text, noMark), acc.originals + [s])
  }

  /** `FormatMessage(*parts, no_mark=...)` */
  function Build(parts: seq<Part>, noMark: bool): (r: Msg)
    ensures noMark ==> |r.originals| == |parts| && |r.mc| == |parts| + 1
  {
    if parts == [] then Msg("", [JStr("")], [])
    else Step(Build(parts[..|parts| - 1], noMark), parts[|parts| - 1], noMark)
  }

  /** A built message: `mc` starts with `""` and holds dicts after it. */
  predicate WellFormed(m: Msg)
  {
    |m.mc| >= 1 && m.mc[0] == JStr("") && forall i :: 1 <= i < |m.mc| ==> m.mc[i].JObj?
  }

  /** Built from well-formed nested messages, a message is well formed. */
  lemma {:induction false} BuildWellFormed(parts: seq<Part>, noMark: bool)
    requires forall i :: 0 <= i < |parts| && parts[i].Nested? ==> WellFormed(parts[i].m)
    ensures WellFormed(Build(parts, noMark))
    decreases |parts|
  {
    if parts != [] {
      var init := parts[..|parts| - 1];
      assert forall i :: 0 <= i < |init| ==> init[i] == parts[i];
      BuildWellFormed(init, noMark);
      StepWellFormed(Build(init, noMark), parts[|parts| - 1], noMark);
    }
  }

  /** One step keeps a message well formed, given a well-formed nested message. */
  lemma StepWellFormed(acc: Msg, part: Part, noMark: bool)
    requires WellFormed(acc) && (part.Nested? ==> WellFormed(part.m))
    ensures WellFormed(Step(acc, part, noMark))
  {
    var p := if noMark then Text(" " + StrOf(part)) else part;
    if p.Nested? {
      var mc := acc.mc + Tail(p.m.mc);
      forall i | 1 <= i < |mc| ensures mc[i].JObj? {
        if i >= |acc.mc| {
          assert mc[i] == p.m.mc[i - |acc.mc| + 1];
        }
      }
    } else {
      var desc := SplitDescText(p.s).0;
      var text := SplitDescText(p.s).1;
      assert Step(acc, part, noMark).mc == AddText(acc.mc, desc, text, noMark);
      AddTextWellFormed(acc.mc, desc, text, noMark);
    }
  }

  /** Adding a text part keeps `""` first and dicts after it. */
  lemma AddTextWellFormed(mc: seq<JVal>, desc: string, text: string, noMark: bool)
    requires |mc| >= 1 && mc[0] == JStr("") && forall i :: 1 <= i < |mc| ==> mc[i].JObj?
    ensures var r := AddText(mc, desc, text, noMark);
      |r| >= 1 && r[0] == JStr("") && forall i :: 1 <= i < |r| ==> r[i].JObj?
  {
  }

  /** A message nested alone is rebuilt unchanged: its components, ANSI text and originals carry over. */
  lemma NestedAloneUnchanged(m: Msg, repr: string)
    requires WellFormed(m)
    ensures Build([Nested(m, repr)], false) == m
  {
    assert [Nested(m, repr)][..0] == [];
    assert [JStr("")] + m.mc[1..] == m.mc;
  }

  /** With `no_mark` every part, nested or not, is one new component and one original `" " + str(part)`. */
  lemma {:induction false} NoMarkOneComponentEach(parts: seq<Part>)
    ensures |Build(parts, true).mc| == |parts| + 1
    ensures |Build(parts, true).originals| == |parts|
    ensures forall i :: 0 <= i < |parts| ==>
      Build(parts, true).originals[i] == " " + StrOf(parts[i])
    decreases |parts|
  {
    if parts != [] {
      var init := parts[..|parts| - 1];
      var last := parts[|parts| - 1];
      var prev := Build(init, true);
      NoMarkOneComponentEach(init);
      NoMarkStep(prev, last);
      OriginalsAppend(prev.originals, init, parts);
    }
  }

  /** The text forms of all but the last part, followed by the last one's, are those of all the parts. */
  lemma OriginalsAppend(po: seq<string>, init: seq<Part>, parts: seq<Part>)
    requires parts != [] && init == parts[..|parts| - 1] && |po| == |init|
    requires forall i :: 0 <= i < |init| ==> po[i] == " " + StrOf(init[i])
    ensures forall i :: 0 <= i < |parts| ==> (po + [" " + StrOf(parts[|parts| - 1])])[i] == " " + StrOf(parts[i])
  {
    var o := po + [" " + StrOf(parts[|parts| - 1])];
    forall i | 0 <= i < |parts| ensures o[i] == " " + StrOf(parts[i]) {
      if i < |init| {
        assert o[i] == po[i] && init[i] == parts[i];
      }
    }
  }

  /** Under `no_mark` one part adds one component and one original, its text form with a leading space. */
  lemma NoMarkStep(acc: Msg, part: Part)
    ensures |Step(acc, part, true).mc| == |acc.mc| + 1
    ensures Step(acc, part, true).originals == acc.originals + [" " + StrOf(part)]
  {
  }

  /**
   * A part whose `desc` holds a mark, after a component, adds no component:
   * the last one gets the mark's event with the part's text as its value.
   */
  lemma MarkAttachesToLast(acc: Msg, s: string)
    requires |acc.mc| > 0 && acc.mc[|acc.mc| - 1].JObj?
    requires FirstMark(SplitDescText(s).0, MarkKeys()).Some?
    ensures |Step(acc, Text(s), false).mc| == |acc.mc|
    ensures Step(acc, Text(s), false).mc[..|acc.mc| - 1] == acc.mc[..|acc.mc| - 1]
    ensures
      var k := FirstMark(SplitDescText(s).0, MarkKeys()).value;
      var last := Step(acc, Text(s), false).mc[|acc.mc| - 1];
      last.JObj? && Get(last.entries, MarkEvent(k).0) == Some(EventEntry(k, SplitDescText(s).1).1)
  {
    var desc := SplitDescText(s).0;
    var text := SplitDescText(s).1;
    var k := FirstMark(desc, MarkKeys()).value;
    var entries := acc.mc[|acc.mc| - 1].entries;
    TextStepMc(acc, s, desc, text);
    AddTextMarked(acc.mc, desc, text, k);
    EventKeyNotStyle(k);
    StyleKeys(desc, MarkEvent(k).0);
    LastGetsEvent(entries, k, text, StyleSpec(desc).0);
    ReplaceLast(acc.mc, JObj(UpdateAll(entries, [EventEntry(k, text)] + StyleSpec(desc).0)));
  }

  /** An event key is neither `color` nor the name of a format. */
  lemma EventKeyNotStyle(k: char)
    ensures MarkEvent(k).0 != "color"
    ensures forall i :: 0 <= i < |Formats()| ==> LowerName(Formats()[i]) != MarkEvent(k).0
  {
    var x := MarkEvent(k).0;
    assert |x| == 10 && x[0] in {'c', 'h'};
    forall i | 0 <= i < |Formats()| ensures LowerName(Formats()[i]) != x {
      var n := LowerName(Formats()[i]);
      assert |n| != 10 || n[0] == 'o';
    }
  }

  /** A text part's step, with the split of its text named. */
  lemma TextStepMc(acc: Msg, s: string, desc: string, text: string)
    requires desc == SplitDescText(s).0 && text == SplitDescText(s).1
    ensures Step(acc, Text(s), false).mc == AddText(acc.mc, desc, text, false)
  {
  }

  /** With a mark in `desc` and a dict last, the text's entries update that dict. */
  lemma AddTextMarked(mc: seq<JVal>, desc: string, text: string, k: char)
    requires |mc| > 0 && mc[|mc| - 1].JObj? && FirstMark(desc, MarkKeys()) == Some(k)
    ensures AddText(mc, desc, text, false)
      == mc[..|mc| - 1] + [JObj(UpdateAll(mc[|mc| - 1].entries, [EventEntry(k, text)] + StyleSpec(desc).0))]
  {
  }

  /** The event entry goes first and no style entry shares its key, so it survives the update. */
  lemma LastGetsEvent(entries: seq<(string, JVal)>, k: char, text: string, style: seq<(string, JVal)>)
    requires !HasName(style, MarkEvent(k).0)
    ensures Get(UpdateAll(entries, [EventEntry(k, text)] + style), MarkEvent(k).0) == Some(EventEntry(k, text).1)
  {
    var upd := [EventEntry(k, text)] + style;
    forall j | 0 < j < |upd| ensures upd[j].0 != upd[0].0 {
      assert upd[j] == style[j - 1];
    }
    UpdateAllGet(entries, upd, 0);
  }

  /** Replacing the last element keeps the length and the elements before it. */
  lemma ReplaceLast<T>(s: seq<T>, v: T)
    requires |s| > 0
    ensures |s[..|s| - 1] + [v]| == |s|
    ensures (s[..|s| - 1] + [v])[..|s| - 1] == s[..|s| - 1]
    ensures (s[..|s| - 1] + [v])[|s| - 1] == v
  {
  }

  /** `MarkAttachesToLast` with the mark and the text named. */
  lemma MarkEventOnLast(acc: Msg, s: string, k: char, text: string)
    requires |acc.mc| > 0 && acc.mc[|acc.mc| - 1].JObj?
    requires SplitDescText(s).1 == text
    requires FirstMark(SplitDescText(s).0, MarkKeys()) == Some(k)
    ensures |Step(acc, Text(s), false).mc| == |acc.mc|
    ensures Step(acc, Text(s), false).mc[|acc.mc| - 1].JObj?
    ensures Get(Step(acc, Text(s), false).mc[|acc.mc| - 1].entries, MarkEvent(k).0) == Some(EventEntry(k, text).1)
  {
    MarkAttachesToLast(acc, s);
  }

  /** The style mapping only has format names and `color` as keys. */
  lemma StyleKeys(desc: string, x: string)
    requires x != "color" && forall i :: 0 <= i < |Formats()| ==> LowerName(Formats()[i]) != x
    ensures !HasName(StyleSpec(desc).0, x)
  {
    FormatNamesDistinct();
    FormatPartGet(desc, Formats(), x);
    var fs := FormatPart(desc, Formats());
    if FirstColor(desc, Colors()).Some? {
      PutFacts(fs.0, "color", JStr(LowerName(Colors()[FirstColor(desc, Colors()).value])));
    }
  }

  /** After an update, a key no later entry sets reads as the entry's value. */
  lemma {:induction false} UpdateAllGet(d: seq<(string, JVal)>, upd: seq<(string, JVal)>, i: nat)
    requires i < |upd| && forall j :: i < j < |upd| ==> upd[j].0 != upd[i].0
    ensures Get(UpdateAll(d, upd), upd[i].0) == Some(upd[i].1)
    decreases |upd|
  {
    var init := upd[..|upd| - 1];
    var e := upd[|upd| - 1];
    PutFacts(UpdateAll(d, init), e.0, e.1);
    if i < |upd| - 1 {
      assert forall j :: i < j < |init| ==> init[j] == upd[j];
      UpdateAllGet(d, init, i);
    }
  }

  /** A part without any mark (or under `no_mark`) appends one component carrying its text. */
  lemma PlainTextAppends(acc: Msg, s: string, noMark: bool)
    requires noMark || FirstMark(SplitDescText(if noMark then " " + s else s).0, MarkKeys()).None?
    ensures
      var t := if noMark then " " + s else s;
      Step(acc, Text(s), noMark).mc
        == acc.mc + [JObj([("text", JStr(SplitDescText(t).1))] + StyleSpec(SplitDescText(t).0).0)]
  {
  }

  /** `FormatMessage.__init__`: the loop over the parts and, for a string part, the `for ... else` over the marks. */
  method NewFormatMessage(parts: seq<Part>, noMark: bool) returns (m: Msg)
    ensures m == Build(parts, noMark)
  {
    var ansi, mc, originals := "", [JStr("")], [];
    var i := 0;
    while i < |parts|
      invariant 0 <= i <= |parts|
      invariant Msg(ansi, mc, originals) == Build(parts[..i], noMark)
    {
      assert parts[..i + 1][..i] == parts[..i];
      var part := parts[i];
      if noMark {
        part := Text(" " + StrOf(part));
      }
      if part.Nested? {
        mc := mc + Tail(part.m.mc);
        ansi := ansi + part.m.ansi;
        originals := originals + part.m.originals;
      } else {
        var s := part.s;
        originals := originals + [s];
        ansi := ansi + Console(s);
        var (desc, text) := SplitDescText(s);
        var style, _ := ParseStyle(desc);
        mc := AttachText(mc, desc, text, style, noMark);
      }
      i := i + 1;
    }
    assert parts[..i] == parts;
    m := Msg(ansi, mc, originals);
  }

  /** The `for ... else` over the marks: attach the first mark's event to the last dict, or append a new component. */
  method AttachText(mc0: seq<JVal>, desc: string, text: string, style: seq<(string, JVal)>, noMark: bool) returns (mc: seq<JVal>)
    requires style == StyleSpec(desc).0
    ensures mc == AddText(mc0, desc, text, noMark)
  {
    mc := mc0;
    var keys := MarkKeys();
    var j := 0;
    var attached := false;
    while j < |keys|
      invariant 0 <= j <= |keys|
      invariant !attached ==> mc == mc0
      invariant !attached && !noMark && |mc0| > 0 && mc0[|mc0| - 1].JObj? ==> forall k :: 0 <= k < j ==> keys[k] !in desc
      invariant attached ==> mc == AddText(mc0, desc, text, noMark)
    {
      if keys[j] !in desc || noMark {
        j := j + 1;
        continue;
      }
      if |mc| > 0 && mc[|mc| - 1].JObj? {
        FirstMarkIs(desc, keys, j);
        var key := keys[j];
        mc := mc[..|mc| - 1] + [JObj(UpdateAll(mc[|mc| - 1].entries, [EventEntry(key, text)] + style))];
        attached := true;
        break;
      }
      j := j + 1;
    }
    if !attached {
      mc := mc + [JObj([("text", JStr(text))] + style)];
    }
  }

  lemma {:induction false} FirstMarkIs(desc: string, ks: seq<char>, j: nat)
    requires j < |ks| && ks[j] in desc && forall k :: 0 <= k < j ==> ks[k] !in desc
    ensures FirstMark(desc, ks) == Some(ks[j])
    decreases j
  {
    if j > 0 {
      assert forall k :: 0 <= k < j - 1 ==> ks[1..][k] == ks[k + 1];
      FirstMarkIs(desc, ks[1..], j - 1);
    }
  }
}
