/**
 * The pure helpers of the Discord bot (`plugins/discord/client.py`): the
 * markdown escaping `fix_msg`, the stats query the `stats` command sends
 * and the reply it builds from the answer, and the styled messages
 * `style_message` turns a Discord message into.
 */
module DiscordHelpers {
  import opened Wrappers
  import opened PyStr
  import opened PyValues
  import opened StyleFormat
  import StrDict

  // ----- fix_msg -----

  /** The characters `fix_msg` escapes, in the order it replaces them. */
  function EscapeOrder(): seq<char> { ['\\', '`', '*', '_', '<', '>', '@'] }

  /** Every character of `cs` in `s` gets a backslash in front, in one pass over `s`. */
  function EscapeWith(s: string, cs: seq<char>): (r: string)
    ensures |r| == |s| + CountIn(s, cs)
  {
    if s == [] then "" else (if s[0] in cs then ['\\', s[0]] else [s[0]]) + EscapeWith(s[1..], cs)
  }

  /** How many characters of `s` are among `cs`. */
  function CountIn(s: string, cs: seq<char>): nat
  {
    if s == [] then 0 else (if s[0] in cs then 1 else 0) + CountIn(s[1..], cs)
  }

  /** `fix_msg(msg)`: one `str.replace` per character, backslash first. */
  method FixMsg(msg: string) returns (r: string)
    ensures r == EscapeWith(msg, EscapeOrder())
  {
    var cs := EscapeOrder();
    r := msg;
    EscapeNothing(msg);
    assert cs[..0] == [];
    for i := 0 to |cs|
      invariant r == EscapeWith(msg, cs[..i])
    {
      EscapeOrderFacts(i);
      ReplaceStep(msg, cs[..i], cs[i]);
      assert cs[..i] + [cs[i]] == cs[..i + 1];
      r := ReplaceChar(r, cs[i], ['\\', cs[i]]);
    }
    assert cs[..|cs|] == cs;
  }

  lemma {:induction false} EscapeNothing(s: string)
    ensures EscapeWith(s, []) == s
    decreases |s|
  {
    if s != [] {
      EscapeNothing(s[1..]);
      assert [s[0]] + s[1..] == s;
    }
  }

  /** Each character is new when replaced, and after the first the backslash has been replaced. */
  lemma EscapeOrderFacts(i: nat)
    requires i < |EscapeOrder()|
    ensures EscapeOrder()[i] !in EscapeOrder()[..i]
    ensures (i == 0 && EscapeOrder()[i] == '\\') || '\\' in EscapeOrder()[..i]
  {
    var cs := EscapeOrder();
    if i > 0 {
      assert cs[..i][0] == '\\';
    }
  }

  /**
   * Replacing one more character after the earlier ones is the same as
   * escaping all of them at once, because the backslash went first and so
   * the backslashes inserted later are never escaped again.
   */
  lemma {:induction false} ReplaceStep(s: string, cs: seq<char>, c: char)
    requires c !in cs
    requires (cs == [] && c == '\\') || '\\' in cs
    ensures ReplaceChar(EscapeWith(s, cs), c, ['\\', c]) == EscapeWith(s, cs + [c])
    decreases |s|
  {
    if s != [] {
      var head := if s[0] in cs then ['\\', s[0]] else [s[0]];
      ReplaceCharAppend(head, EscapeWith(s[1..], cs), c, ['\\', c]);
      ReplaceStep(s[1..], cs, c);
      if s[0] in cs {
        assert ReplaceChar(head, c, ['\\', c]) == head by {
          assert head[1..] == [s[0]];
        }
      }
    }
  }

  /** The prefixed characters are exactly the escaped ones: a backslash before each is all that changed. */
  function Unescape(r: string): string
  {
    if r == [] then "" else if r[0] == '\\' && |r| >= 2 then [r[1]] + Unescape(r[2..]) else [r[0]] + Unescape(r[1..])
  }

  lemma {:induction false} UnescapeEscape(s: string, cs: seq<char>)
    requires '\\' in cs
    ensures Unescape(EscapeWith(s, cs)) == s
    decreases |s|
  {
    if s != [] {
      var e := EscapeWith(s, cs);
      UnescapeEscape(s[1..], cs);
      if s[0] in cs {
        assert e[2..] == EscapeWith(s[1..], cs);
      } else {
        assert e[1..] == EscapeWith(s[1..], cs);
      }
      assert [s[0]] + s[1..] == s;
    }
  }

  /** The escaped message grows by one character per escaped character, and unescapes back. */
  lemma FixMsgFacts(msg: string)
    ensures |EscapeWith(msg, EscapeOrder())| == |msg| + CountIn(msg, EscapeOrder())
    ensures Unescape(EscapeWith(msg, EscapeOrder())) == msg
  {
    UnescapeEscape(msg, EscapeOrder());
  }

  // ----- the stats command -----

  /** The command `stats` sends: a leading `rank` argument is dropped; reading `args[0]` fails on no arguments. */
  function StatsQuery(args: seq<string>): (r: Result<string, PyError>)
    ensures r.Err? <==> args == []
    ensures r.Ok? ==> StartsWith(r.value, "stats rank ")
  {
    if args == [] then Err(IndexError)
    else Ok("stats rank " + Join(" ", if args[0] == "rank" then args[1..] else args))
  }

  /** A leading `rank` is only dropped once, and the other arguments are kept in order. */
  lemma StatsQueryRank(rest: seq<string>)
    ensures StatsQuery(["rank"] + rest) == Ok("stats rank " + Join(" ", rest))
    ensures rest != [] && rest[0] != "rank" ==> StatsQuery(rest) == Ok("stats rank " + Join(" ", rest))
  {
    assert (["rank"] + rest)[1..] == rest;
  }

  /** What the bot answers with. */
  datatype StatsReply =
    | RankEmbed(statsName: Option<Value>, ranks: seq<string>, players: seq<string>, values: seq<string>, total: Value)
    | UnknownStats
    | NoStatsHelper
    | NoReply
    | Failed(e: PyError)

  /** One data line: exactly three space-separated fields, else the tuple unpacking fails. */
  function RankRow(line: Value): (r: Result<(string, string, string), PyError>)
    ensures r.Ok? ==> line.StrV? && line.s == r.value.0 + " " + r.value.1 + " " + r.value.2
  {
    if !line.StrV? then Err(AttributeError)
    else
      var f := Split(line.s, ' ');
      if |f| != 3 then Err(ValueError)
      else
        assert Join(" ", f) == f[0] + " " + f[1] + " " + f[2] by {
          assert f[1..][1..] == [f[2]];
          assert Join(" ", f[1..]) == f[1] + " " + f[2];
          assert Join(" ", f) == f[0] + " " + (f[1] + " " + f[2]);
        }
        JoinSplit(line.s, ' ');
        Ok((f[0], f[1], f[2]))
  }

  /** The three columns, the player escaped; the first bad line fails the command. */
  function RankTable(lines: seq<Value>): (r: Result<(seq<string>, seq<string>, seq<string>), PyError>)
    ensures r.Ok? ==> |r.value.0| == |lines| && |r.value.1| == |lines| && |r.value.2| == |lines|
  {
    if lines == [] then Ok(([], [], []))
    else
      var prev := RankTable(lines[..|lines| - 1]);
      var row := RankRow(lines[|lines| - 1]);
      if prev.Err? then prev
      else if row.Err? then Err(row.error)
      else Ok((prev.value.0 + [row.value.0], prev.value.1 + [EscapeWith(row.value.1, EscapeOrder())],
               prev.value.2 + [row.value.2]))
  }

  /** The loop of the code-0 branch that appends to the three lists. */
  method RankColumns(lines: seq<Value>) returns (r: Result<(seq<string>, seq<string>, seq<string>), PyError>)
    ensures r == RankTable(lines)
  {
    var ranks, players, values := [], [], [];
    for i := 0 to |lines|
      invariant RankTable(lines[..i]) == Ok((ranks, players, values))
    {
      assert lines[..i + 1][..i] == lines[..i];
      var row := RankRow(lines[i]);
      if row.Err? {
        RankTableKeepsError(lines, i + 1, row.error);
        return Err(row.error);
      }
      var (rank, player, value) := row.value;
      ranks := ranks + [rank];
      var escaped := FixMsg(player);
      players := players + [escaped];
      values := values + [value];
    }
    assert lines[..|lines|] == lines;
    r := Ok((ranks, players, values));
  }

  /** Once a prefix fails, every longer prefix fails with the same error. */
  lemma {:induction false} RankTableKeepsError(lines: seq<Value>, k: nat, e: PyError)
    requires 0 < k <= |lines| && RankTable(lines[..k]) == Err(e)
    ensures RankTable(lines) == Err(e)
    decreases |lines| - k
  {
    if k < |lines| {
      assert lines[..k + 1][..k] == lines[..k];
      RankTableKeepsError(lines, k + 1, e);
    } else {
      assert lines[..k] == lines;
    }
  }

  /** A line made of three space-free fields gives those fields, the player escaped. */
  lemma RankRowRoundTrip(rank: string, player: string, value: string)
    requires ' ' !in rank && ' ' !in player && ' ' !in value
    ensures RankTable([StrV(rank + " " + player + " " + value)]) ==
      Ok(([rank], [EscapeWith(player, EscapeOrder())], [value]))
  {
    var line := rank + " " + player + " " + value;
    RowFields(rank, player, value);
    assert RankRow(StrV(line)) == Ok((rank, player, value));
    var lines := [StrV(line)];
    assert lines[..0] == [];
    assert RankTable(lines[..0]) == Ok(([], [], []));
    var row := RankRow(lines[0]);
    assert row.value == (rank, player, value);
    var none: seq<string> := [];
    assert RankTable(lines) == Ok((none + [rank], none + [EscapeWith(player, EscapeOrder())], none + [value]));
    assert none + [rank] == [rank] && none + [value] == [value];
    assert none + [EscapeWith(player, EscapeOrder())] == [EscapeWith(player, EscapeOrder())];
  }

  lemma RowFields(rank: string, player: string, value: string)
    requires ' ' !in rank && ' ' !in player && ' ' !in value
    ensures Split(rank + " " + player + " " + value, ' ') == [rank, player, value]
  {
    var line := rank + " " + player + " " + value;
    var tail := player + [' '] + value;
    assert line == rank + [' '] + tail;
    SplitAfterWord(rank, ' ', tail);
    SplitAfterWord(player, ' ', value);
    SplitNoSpace(value);
    assert Split(tail, ' ') == [player, value];
    assert Split(line, ' ') == [rank] + [player, value];
  }

  lemma {:induction false} SplitNoSpace(s: string)
    requires ' ' !in s
    ensures Split(s, ' ') == [s]
    decreases |s|
  {
    if s != [] {
      assert ' ' !in s[1..] by {
        forall j | 0 <= j < |s[1..]| ensures s[1..][j] != ' ' {
          assert s[1..][j] == s[j + 1];
        }
      }
      SplitNoSpace(s[1..]);
      assert [s[0]] + s[1..] == s;
    }
  }

  /**
   * `for line in data`: a list gives its items, a string its one-character
   * strings and a dictionary its keys; anything else is not iterable.
   */
  function Iterated(data: Value): (r: Result<seq<Value>, PyError>)
    ensures r.Ok? <==> data.ListV? || data.StrV? || data.DictV?
    ensures r.Err? ==> r.error == TypeError
    ensures data.ListV? ==> r == Ok(data.items)
    ensures data.StrV? ==> r.Ok? && |r.value| == |data.s| && forall i :: 0 <= i < |data.s| ==> r.value[i] == StrV([data.s[i]])
    ensures data.DictV? ==> r.Ok? && |r.value| == |data.entries| && forall i :: 0 <= i < |data.entries| ==> r.value[i] == data.entries[i].0
  {
    match data
    case ListV(items) => Ok(items)
    case StrV(s) => Ok(seq(|s|, i requires 0 <= i < |s| => StrV([s[i]])))
    case DictV(entries) => Ok(seq(|entries|, i requires 0 <= i < |entries| => entries[i].0))
    case _ => Err(TypeError)
  }

  /** `result.get("data", [])` */
  function DataOf(result: Value): Value
  {
    var data := Get(result, "data");
    if data.None? then ListV([]) else data.value
  }

  /** `result.get("total", -1)` */
  function TotalOf(result: Value): Value
  {
    var total := Get(result, "total");
    if total.None? then IntV(-1) else total.value
  }

  /**
   * The reply to the answer of the queried client: a missing code counts as
   * 2. A code-0 answer reads its data lines into the three columns, then
   * `format_number` compares the total with 1000, which raises `TypeError`
   * for anything but a number.
   */
  function StatsReplyOf(result: Value): (r: StatsReply)
    ensures r.RankEmbed? ==> PyEq(CodeOf(result), IntV(0))
    ensures r == UnknownStats <==> PyEq(CodeOf(result), IntV(1))
    ensures r == NoStatsHelper <==> PyEq(CodeOf(result), IntV(2))
    ensures r.RankEmbed? ==> IsNumber(r.total) && r.total == TotalOf(result)
    ensures r.RankEmbed? ==>
      Iterated(DataOf(result)).Ok? && RankTable(Iterated(DataOf(result)).value) == Ok((r.ranks, r.players, r.values))
    ensures PyEq(CodeOf(result), IntV(0)) && !IsNumber(TotalOf(result)) ==> r.Failed?
  {
    var code := CodeOf(result);
    if PyEq(code, IntV(0)) then
      match Iterated(DataOf(result))
      case Err(e) => Failed(e)
      case Ok(lines) =>
        var t := RankTable(lines);
        if t.Err? then Failed(t.error)
        else
          var total := TotalOf(result);
          if !IsNumber(total) then Failed(TypeError)
          else RankEmbed(Get(result, "stats_name"), t.value.0, t.value.1, t.value.2, total)
    else if PyEq(code, IntV(1)) then UnknownStats
    else if PyEq(code, IntV(2)) then NoStatsHelper
    else NoReply
  }

  /** A one-character line is never three fields. */
  lemma OneCharRow(c: char)
    ensures RankRow(StrV([c])) == Err(ValueError)
  {
    assert [c][1..] == [];
    if c == ' ' {
      assert Split([c], ' ') == [""] + Split([], ' ');
    }
  }

  /** A non-empty string under `data`: its first character fails the unpacking with `ValueError`. */
  lemma {:induction false} CharLinesFail(s: string)
    requires s != []
    ensures RankTable(seq(|s|, i requires 0 <= i < |s| => StrV([s[i]]))) == Err(ValueError)
    decreases |s|
  {
    var lines := seq(|s|, i requires 0 <= i < |s| => StrV([s[i]]));
    OneCharRow(s[|s| - 1]);
    if |s| > 1 {
      var init := s[..|s| - 1];
      CharLinesFail(init);
      assert lines[..|lines| - 1] == seq(|init|, i requires 0 <= i < |init| => StrV([init[i]]));
    } else {
      assert lines[..0] == [];
    }
  }

  /**
   * A code-0 answer whose `data` is a string: an empty one gives an empty
   * table, any other fails with `ValueError` on its first character.
   */
  lemma StringData(result: Value, s: string)
    requires PyEq(CodeOf(result), IntV(0)) && Get(result, "data") == Some(StrV(s))
    ensures s != [] ==> StatsReplyOf(result) == Failed(ValueError)
    ensures s == [] && IsNumber(TotalOf(result)) ==>
      StatsReplyOf(result) == RankEmbed(Get(result, "stats_name"), [], [], [], TotalOf(result))
  {
    var lines := Iterated(StrV(s)).value;
    if s != [] {
      CharLinesFail(s);
      assert lines == seq(|s|, i requires 0 <= i < |s| => StrV([s[i]]));
    } else {
      assert lines == [];
    }
  }

  /** A code-0 answer whose `data` is a dictionary reads its keys as the lines. */
  lemma DictData(result: Value, entries: seq<(Value, Value)>)
    requires PyEq(CodeOf(result), IntV(0)) && Get(result, "data") == Some(DictV(entries))
    ensures var keys := seq(|entries|, i requires 0 <= i < |entries| => entries[i].0);
      RankTable(keys).Err? ==> StatsReplyOf(result) == Failed(RankTable(keys).error)
  {
    var keys := seq(|entries|, i requires 0 <= i < |entries| => entries[i].0);
    assert Iterated(DictV(entries)).value == keys;
  }

  /** A code-0 answer whose lines parse but whose `total` is no number fails in `format_number`. */
  lemma NonNumericTotal(result: Value, lines: seq<Value>)
    requires PyEq(CodeOf(result), IntV(0)) && Get(result, "data") == Some(ListV(lines)) && RankTable(lines).Ok?
    requires Get(result, "total").Some? && !IsNumber(Get(result, "total").value)
    ensures StatsReplyOf(result) == Failed(TypeError)
  {
  }

  /** A code-0 answer with a list under `data` and a numeric `total` is read as the rank table. */
  lemma CodeZeroReply(result: Value, lines: seq<Value>, total: Value)
    requires Get(result, "code") == Some(IntV(0)) && Get(result, "data") == Some(ListV(lines))
    requires Get(result, "total") == Some(total) && IsNumber(total) && RankTable(lines).Ok?
    ensures StatsReplyOf(result) ==
      RankEmbed(Get(result, "stats_name"), RankTable(lines).value.0, RankTable(lines).value.1,
                RankTable(lines).value.2, total)
  {
  }

  /** `result.get("code", 2)` */
  function CodeOf(result: Value): Value
  {
    var c := Get(result, "code");
    if c.None? then IntV(2) else c.value
  }

  /** An answer without a code is read as "stats_helper not enabled". */
  lemma MissingCodeIsTwo(result: Value)
    requires Get(result, "code").None?
    ensures StatsReplyOf(result) == NoStatsHelper
  {
  }

  // ----- style_message -----

  /** `style_message` for a message's text, its attachment count and its jump URL. */
  function StyleMessage(content: string, attachments: nat, jumpUrl: string): (r: seq<Msg>)
    ensures |r| == (if content != "" then 1 else 0) + (if attachments > 0 then 1 else 0)
  {
    (if content != "" then
       [Build([Text(if StartsWith(content, "\\:") then content[2..] else " " + content)], true)]
     else [])
    + (if attachments > 0 then [AttachmentLink(jumpUrl)] else [])
  }

  const LinkText: string := "<Click Me to open the attachment [點我打開附件]>"

  function AttachmentLink(jumpUrl: string): Msg
  {
    Build([Text("li " + LinkText), Text("@ " + jumpUrl)], false)
  }

  /**
   * A text message becomes one white component: `\:` is cut off the front,
   * any other text gets a space, and `no_mark` adds one more.
   */
  lemma ContentMessage(content: string)
    requires content != ""
    ensures |StyleMessage(content, 0, "")| == 1
    ensures StyleMessage(content, 0, "")[0].originals ==
      [" " + (if StartsWith(content, "\\:") then content[2..] else " " + content)]
    ensures |StyleMessage(content, 0, "")[0].mc| == 2
  {
    var p := Text(if StartsWith(content, "\\:") then content[2..] else " " + content);
    NoMarkOneComponentEach([p]);
  }

  /** The attachment link opens the message's URL when clicked. */
  lemma AttachmentLinkOpensUrl(jumpUrl: string)
    ensures |AttachmentLink(jumpUrl).mc| == 2
    ensures AttachmentLink(jumpUrl).mc[1].JObj?
    ensures StrDict.Get(AttachmentLink(jumpUrl).mc[1].entries, "clickEvent") ==
      Some(JObj([("action", JStr("open_url")), ("value", JStr(jumpUrl))]))
  {
    LinkOpensUrl(LinkText, jumpUrl);
  }

  /** A caption with the `li` desc, then an `@` part: the caption's component gets the click event. */
  lemma LinkOpensUrl(caption: string, url: string)
    ensures |Build([Text("li " + caption), Text("@ " + url)], false).mc| == 2
    ensures Build([Text("li " + caption), Text("@ " + url)], false).mc[1].JObj?
    ensures StrDict.Get(Build([Text("li " + caption), Text("@ " + url)], false).mc[1].entries, "clickEvent") ==
      Some(JObj([("action", JStr("open_url")), ("value", JStr(url))]))
  {
    var first := Text("li " + caption);
    var link := Text("@ " + url);
    assert [first, link][..1] == [first];
    CaptionComponent(caption);
    LinkStep(Build([first], false), url);
  }

  /** An `@` part after a dict component puts the open-URL event on it. */
  lemma LinkStep(m: Msg, url: string)
    requires |m.mc| == 2 && m.mc[1].JObj?
    ensures |Step(m, Text("@ " + url), false).mc| == 2
    ensures Step(m, Text("@ " + url), false).mc[1].JObj?
    ensures StrDict.Get(Step(m, Text("@ " + url), false).mc[1].entries, "clickEvent") ==
      Some(JObj([("action", JStr("open_url")), ("value", JStr(url))]))
  {
    SplitDescRoundTrip("@", url);
    assert "@" + " " + url == "@ " + url;
    assert FirstMark("@", MarkKeys()) == Some('@');
    MarkEventOnLast(m, "@ " + url, '@', url);
    OpenUrlEntry(url);
  }

  lemma OpenUrlEntry(url: string)
    ensures EventEntry('@', url) == ("clickEvent", JObj([("action", JStr("open_url")), ("value", JStr(url))]))
  {
  }

  /** The caption alone makes one component, a dict. */
  lemma CaptionComponent(caption: string)
    ensures |Build([Text("li " + caption)], false).mc| == 2
    ensures Build([Text("li " + caption)], false).mc[1].JObj?
  {
    var first := Text("li " + caption);
    assert [first][..0] == [];
    SplitDescRoundTrip("li", caption);
    assert FirstMark("li", MarkKeys()).None?;
  }
}
