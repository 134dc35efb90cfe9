/**
 * The reader plugin of `chatbridgee/chatbridgee/read.py` on the game-server
 * side: the reply it emits to an extra command (the stats query of the
 * Discord bot), and the texts it shows for the events other servers relay.
 */
module ReadClient {
  import opened Wrappers
  import opened PyStr
  import opened PyValues
  import DiscordHelpers

  // ----- on_extra_command -----

  /** The arguments of `stats_helper.show_rank` that depend on the command. */
  datatype RankQuery = RankQuery(cls: string, target: string, listBot: bool, isAll: bool)

  /** `command.replace("-bot", "").replace("-all", "").split()` */
  function StatsTokens(command: string): seq<string>
  {
    SplitWs(ReplaceAll(ReplaceAll(command, "-bot", ""), "-all", ""))
  }

  /**
   * The `show_rank` call of a stats command, or `None` when unpacking the
   * tokens into four names fails. The flags look at the command as
   * received, before the removals.
   */
  function RankQueryOf(command: string): (r: Option<RankQuery>)
    ensures r.Some? <==> |StatsTokens(command)| == 4
    ensures r.Some? ==> r.value.listBot == ContainsSub(command, "-bot") && r.value.isAll == ContainsSub(command, "-all")
  {
    var t := StatsTokens(command);
    if |t| != 4 then None
    else Some(RankQuery(t[2], t[3], ContainsSub(command, "-bot"), ContainsSub(command, "-all")))
  }

  /**
   * The Discord bot's `stats A B` (or `stats rank A B`), with two plain
   * words, is read back as the query for class `A` and target `B`, without
   * the `-bot` and `-all` flags.
   */
  lemma BotQueryRead(a: string, b: string)
    requires IsWord(a) && IsWord(b) && a != "rank"
    requires forall i :: 0 <= i < |a| ==> a[i] != '-'
    requires forall i :: 0 <= i < |b| ==> b[i] != '-'
    ensures DiscordHelpers.StatsQuery([a, b]) == Ok("stats rank " + a + " " + b)
    ensures DiscordHelpers.StatsQuery(["rank", a, b]) == Ok("stats rank " + a + " " + b)
    ensures StartsWith("stats rank " + a + " " + b, "stats ")
    ensures RankQueryOf("stats rank " + a + " " + b) == Some(RankQuery(a, b, false, false))
  {
    var q := "stats rank " + a + " " + b;
    QueryText(a, b);
    QueryHasNoDash(a, b);
    AbsentNotContained(q, "-bot");
    AbsentNotContained(q, "-all");
    QueryTokens(a, b);
    var t := StatsTokens(q);
    assert t[2] == a && t[3] == b;
  }

  lemma QueryTokens(a: string, b: string)
    requires IsWord(a) && IsWord(b)
    requires forall i :: 0 <= i < |a| ==> a[i] != '-'
    requires forall i :: 0 <= i < |b| ==> b[i] != '-'
    ensures StatsTokens("stats rank " + a + " " + b) == ["stats", "rank", a, b]
  {
    var q := "stats rank " + a + " " + b;
    QueryHasNoDash(a, b);
    ReplaceAllAbsent(q, "-bot", "");
    ReplaceAllAbsent(q, "-all", "");
    QueryWords(a, b);
  }

  lemma QueryText(a: string, b: string)
    requires a != "rank"
    ensures DiscordHelpers.StatsQuery([a, b]) == Ok("stats rank " + a + " " + b)
    ensures DiscordHelpers.StatsQuery(["rank", a, b]) == Ok("stats rank " + a + " " + b)
    ensures StartsWith("stats rank " + a + " " + b, "stats ")
  {
    var q := "stats rank " + a + " " + b;
    assert q[..6] == "stats rank "[..6];
    var j := Join(" ", [a, b]);
    assert [a, b][1..] == [b];
    assert Join(" ", [b]) == b;
    assert j == a + " " + Join(" ", [b]);
    assert "stats rank " + j == "stats rank " + a + " " + b;
    DiscordHelpers.StatsQueryRank([a, b]);
  }

  lemma QueryHasNoDash(a: string, b: string)
    requires forall i :: 0 <= i < |a| ==> a[i] != '-'
    requires forall i :: 0 <= i < |b| ==> b[i] != '-'
    ensures var q := "stats rank " + a + " " + b; forall i :: 0 <= i < |q| ==> q[i] != '-'
  {
    var q := "stats rank " + a + " " + b;
    forall i | 0 <= i < |q|
      ensures q[i] != '-'
    {
      if i >= 11 + |a| + 1 {
        assert q[i] == b[i - 12 - |a|];
      } else if i >= 11 && i < 11 + |a| {
        assert q[i] == a[i - 11];
      }
    }
  }

  lemma QueryWords(a: string, b: string)
    requires IsWord(a) && IsWord(b)
    ensures SplitWs("stats rank " + a + " " + b) == ["stats", "rank", a, b]
  {
    QueryPrefix();
    Regroup("stats", " ", "rank", " ", a, " ", b);
    assert IsWord("stats") && IsWord("rank");
    FourWords("stats", "rank", a, b);
  }

  lemma QueryPrefix()
    ensures "stats rank " == "stats" + (" " + ("rank" + " "))
  {
  }

  lemma Regroup<T>(p1: seq<T>, p2: seq<T>, p3: seq<T>, p4: seq<T>, a: seq<T>, s: seq<T>, b: seq<T>)
    ensures (p1 + (p2 + (p3 + p4))) + a + s + b == p1 + (p2 + (p3 + (p4 + (a + (s + b)))))
  {
  }

  /** Four words joined by single spaces split back into the four. */
  lemma FourWords(w1: string, w2: string, w3: string, w4: string)
    requires IsWord(w1) && IsWord(w2) && IsWord(w3) && IsWord(w4)
    ensures SplitWs(w1 + (" " + (w2 + (" " + (w3 + (" " + w4)))))) == [w1, w2, w3, w4]
  {
    ThreeWords(w2, w3, w4);
    WordSpaceThen(w1, w2 + (" " + (w3 + (" " + w4))));
    FourItems(w1, w2, w3, w4);
  }

  lemma ThreeWords(w2: string, w3: string, w4: string)
    requires IsWord(w2) && IsWord(w3) && IsWord(w4)
    ensures SplitWs(w2 + (" " + (w3 + (" " + w4)))) == [w2] + ([w3] + [w4])
  {
    TwoWords(w3, w4);
    WordSpaceThen(w2, w3 + (" " + w4));
  }

  lemma TwoWords(w3: string, w4: string)
    requires IsWord(w3) && IsWord(w4)
    ensures SplitWs(w3 + (" " + w4)) == [w3] + [w4]
  {
    OneWord(w4);
    WordSpaceThen(w3, w4);
  }

  lemma OneWord(w: string)
    requires IsWord(w)
    ensures SplitWs(w) == [w]
  {
    assert LStrip(w) == w;
    TokenLengthWord(w);
    assert w[..|w|] == w;
    assert LStrip(w[|w|..]) == [];
  }

  lemma FourItems<T>(x1: T, x2: T, x3: T, x4: T)
    ensures [x1] + ([x2] + ([x3] + [x4])) == [x1, x2, x3, x4]
  {
  }

  lemma WordSpaceThen(w: string, t: string)
    requires IsWord(w)
    ensures SplitWs(w + (" " + t)) == [w] + SplitWs(t)
  {
    SplitWsWordThen(w, " " + t);
    SplitWsSpaceThen(t);
  }

  /** What the reply reports. */
  datatype Outcome =
    | NotStats                                               // code -1
    | HelperMissing                                          // code 2
    | NoRank                                                 // code 1
    | Ranked(statsName: string, data: seq<string>, total: int)  // code 0

  function Code(o: Outcome): int
  {
    match o
    case NotStats => -1
    case HelperMissing => 2
    case NoRank => 1
    case Ranked(_, _, _) => 0
  }

  /**
   * The `code 0` fields of the rank text: its first line, the lines between
   * the first and the last, and the number that is the second `" "`-separated
   * word of the last line. No line, or no second word, is an `IndexError`;
   * a word that is not a number a `ValueError`.
   */
  function RankedOf(raw: string): (r: Result<Outcome, PyError>)
    ensures r.Ok? ==> r.value.Ranked?
    ensures SplitLines(raw) == [] ==> r == Err(IndexError)
    ensures var lines := SplitLines(raw);
      var words := if lines == [] then [] else Split(lines[|lines| - 1], ' ');
      (lines != [] && |words| < 2 ==> r == Err(IndexError))
      && (|words| >= 2 && ParseInt(words[1]).None? ==> r == Err(ValueError))
      && (|words| >= 2 && ParseInt(words[1]).Some? ==> r.Ok? && r.value.total == ParseInt(words[1]).value)
    ensures var lines := SplitLines(raw);
      r.Ok? ==> (
        |lines| >= 1 && r.value.statsName == lines[0]
        && (|lines| == 1 ==> r.value.data == [])
        && (|lines| >= 2 ==> [r.value.statsName] + r.value.data + [lines[|lines| - 1]] == lines))
  {
    var lines := SplitLines(raw);
    if lines == [] then Err(IndexError)
    else
      var words := Split(lines[|lines| - 1], ' ');
      if |words| < 2 then Err(IndexError)
      else match ParseInt(words[1])
        case None => Err(ValueError)
        case Some(total) =>
          FirstMiddleLast(lines);
          Ok(Ranked(lines[0], if |lines| >= 2 then lines[1..|lines| - 1] else [], total))
  }

  /** A sequence of two or more is its first element, its middle and its last element. */
  lemma FirstMiddleLast<T>(xs: seq<T>)
    ensures |xs| >= 2 ==> [xs[0]] + xs[1..|xs| - 1] + [xs[|xs| - 1]] == xs
  {
    if |xs| >= 2 {
      assert xs == [xs[0]] + xs[1..];
      assert xs[1..] == xs[1..|xs| - 1] + [xs[|xs| - 1]];
    }
  }

  /**
   * The outcome of `on_extra_command(command)` with `stats_helper`
   * importable or not and `show_rank` as given; `Err` is an exception the
   * handler lets escape, and then nothing is emitted.
   */
  function ExtraCommand(command: string, helper: bool, showRank: RankQuery -> Option<string>): (r: Result<Outcome, PyError>)
    ensures r == Ok(NotStats) <==> !StartsWith(command, "stats ")
    ensures r == Ok(HelperMissing) <==> StartsWith(command, "stats ") && !helper
    ensures r == Ok(NoRank) <==>
      StartsWith(command, "stats ") && helper &&
      (RankQueryOf(command).None? || showRank(RankQueryOf(command).value).None?)
    ensures r.Ok? && r.value.Ranked? <==>
      StartsWith(command, "stats ") && helper && RankQueryOf(command).Some? &&
      showRank(RankQueryOf(command).value).Some? && RankedOf(showRank(RankQueryOf(command).value).value).Ok?
  {
    if !StartsWith(command, "stats ") then Ok(NotStats)
    else if !helper then Ok(HelperMissing)
    else
      var q := RankQueryOf(command);
      var raw := if q.None? then None else showRank(q.value);
      if raw.None? then Ok(NoRank)
      else RankedOf(raw.value)
  }

  function StrList(xs: seq<string>): (r: seq<Value>)
    ensures |r| == |xs| && forall i :: 0 <= i < |xs| ==> r[i] == StrV(xs[i])
  {
    if xs == [] then [] else [StrV(xs[0])] + StrList(xs[1..])
  }

  /** The `result` dictionary: `command` and `code`, then on success `stats_name`, `data` and `total`. */
  function ResultDict(command: string, o: Outcome): Value
  {
    match o
    case Ranked(name, data, total) =>
      DictV([(StrV("command"), StrV(command)), (StrV("code"), IntV(0)),
             (StrV("stats_name"), StrV(name)), (StrV("data"), ListV(StrList(data))), (StrV("total"), IntV(total))])
    case _ => DictV([(StrV("command"), StrV(command)), (StrV("code"), IntV(Code(o)))])
  }

  /** The dictionary `on_extra_command` starts from. */
  function Initial(command: string): seq<(Value, Value)>
  {
    [(StrV("command"), StrV(command)), (StrV("code"), IntV(-1))]
  }

  /** Setting `code` on the initial dictionary replaces the `-1` in place. */
  lemma CodeUpdate(command: string, c: int)
    ensures DictSet(Initial(command), StrV("code"), IntV(c)) == [(StrV("command"), StrV(command)), (StrV("code"), IntV(c))]
  {
    FindKeyAt(Initial(command), StrV("code"), 1);
  }

  /** The `stats_name`, `data` and `total` updates append three new keys in that order. */
  lemma RankedUpdates(command: string, name: string, data: seq<string>, total: int)
    ensures
      var d1 := DictSet(Initial(command), StrV("code"), IntV(0));
      var d2 := DictSet(d1, StrV("stats_name"), StrV(name));
      var d3 := DictSet(d2, StrV("data"), ListV(StrList(data)));
      DictSet(d3, StrV("total"), IntV(total)) == ResultDict(command, Ranked(name, data, total)).entries
  {
    CodeUpdate(command, 0);
    FreshResultKeys();
    var d1 := [(StrV("command"), StrV(command)), (StrV("code"), IntV(0))];
    forall k | 0 <= k < |d1| ensures d1[k].0.StrV? && d1[k].0.s != "stats_name" {
      assert k == 0 || k == 1;
    }
    DictSetNew(d1, "stats_name", StrV(name));
    var d2 := d1 + [(StrV("stats_name"), StrV(name))];
    forall k | 0 <= k < |d2| ensures d2[k].0.StrV? && d2[k].0.s != "data" {
      assert k == 0 || k == 1 || k == 2;
    }
    DictSetNew(d2, "data", ListV(StrList(data)));
    var d3 := d2 + [(StrV("data"), ListV(StrList(data)))];
    forall k | 0 <= k < |d3| ensures d3[k].0.StrV? && d3[k].0.s != "total" {
      assert k == 0 || k == 1 || k == 2 || k == 3;
    }
    DictSetNew(d3, "total", IntV(total));
    FiveItems(d1[0], d1[1], (StrV("stats_name"), StrV(name)), (StrV("data"), ListV(StrList(data))), (StrV("total"), IntV(total)));
  }

  /** The keys `on_extra_command` adds differ from each other and from the initial two. */
  lemma FreshResultKeys()
    ensures "stats_name" != "command" && "stats_name" != "code"
    ensures "data" != "command" && "data" != "code" && "data" != "stats_name"
    ensures "total" != "command" && "total" != "code" && "total" != "stats_name" && "total" != "data"
  {
    assert "stats_name"[0] == 's' && "command"[0] == 'c' && "code"[0] == 'c';
    assert "data"[0] == 'd' && "total"[0] == 't';
  }

  lemma FiveItems<T>(x0: T, x1: T, x2: T, x3: T, x4: T)
    ensures [x0, x1] + [x2] + [x3] + [x4] == [x0, x1, x2, x3, x4]
  {
  }

  /** Once a rank text came back, the outcome is whatever parsing it gives. */
  lemma OutcomeOfRaw(command: string, helper: bool, showRank: RankQuery -> Option<string>, raw: string)
    requires StartsWith(command, "stats ") && helper && |StatsTokens(command)| == 4
    requires showRank(RankQuery(StatsTokens(command)[2], StatsTokens(command)[3],
                                ContainsSub(command, "-bot"), ContainsSub(command, "-all"))) == Some(raw)
    ensures ExtraCommand(command, helper, showRank) == RankedOf(raw)
  {
  }

  /**
   * `ReadClient.on_extra_command(command)`: `result` starts as
   * `{"command": command, "code": -1}` and is updated step by step; it is
   * emitted on `cmd_callback` unless parsing the rank text raised.
   */
  method OnExtraCommand(command: string, helper: bool, showRank: RankQuery -> Option<string>)
    returns (emitted: Result<(string, Value), PyError>)
    ensures ExtraCommand(command, helper, showRank).Err? ==> emitted == Err(ExtraCommand(command, helper, showRank).error)
    ensures ExtraCommand(command, helper, showRank).Ok? ==>
      emitted == Ok(("cmd_callback", ResultDict(command, ExtraCommand(command, helper, showRank).value)))
  {
    var result := Initial(command);
    if !StartsWith(command, "stats ") {
      return Ok(("cmd_callback", DictV(result)));
    }
    if !helper {
      CodeUpdate(command, 2);
      result := DictSet(result, StrV("code"), IntV(2));
      return Ok(("cmd_callback", DictV(result)));
    }
    var tokens := StatsTokens(command);
    var resRaw: Option<string>;
    if |tokens| != 4 {
      resRaw := None;
    } else {
      resRaw := showRank(RankQuery(tokens[2], tokens[3], ContainsSub(command, "-bot"), ContainsSub(command, "-all")));
    }
    if resRaw.None? {
      CodeUpdate(command, 1);
      result := DictSet(result, StrV("code"), IntV(1));
      return Ok(("cmd_callback", DictV(result)));
    }
    OutcomeOfRaw(command, helper, showRank, resRaw.value);
    var parsed := RankedOf(resRaw.value);
    if parsed.Err? {
      return Err(parsed.error);
    }
    var statsName, data, total := parsed.value.statsName, parsed.value.data, parsed.value.total;
    RankedUpdates(command, statsName, data, total);
    result := DictSet(result, StrV("code"), IntV(0));
    result := DictSet(result, StrV("stats_name"), StrV(statsName));
    result := DictSet(result, StrV("data"), ListV(StrList(data)));
    result := DictSet(result, StrV("total"), IntV(total));
    return Ok(("cmd_callback", DictV(result)));
  }

  /**
   * The Discord bot reads the emitted reply as meant: `-1` gets no answer,
   * `1` the unknown-stats answer, `2` the no-stats-helper answer, and `0`
   * the rank table with the stats name and the total.
   */
  lemma ReplyUnderstood(command: string, o: Outcome)
    ensures o == NotStats ==> DiscordHelpers.StatsReplyOf(ResultDict(command, o)) == DiscordHelpers.NoReply
    ensures o == NoRank ==> DiscordHelpers.StatsReplyOf(ResultDict(command, o)) == DiscordHelpers.UnknownStats
    ensures o == HelperMissing ==> DiscordHelpers.StatsReplyOf(ResultDict(command, o)) == DiscordHelpers.NoStatsHelper
    ensures o.Ranked? && DiscordHelpers.RankTable(StrList(o.data)).Ok? ==>
      var t := DiscordHelpers.RankTable(StrList(o.data)).value;
      DiscordHelpers.StatsReplyOf(ResultDict(command, o)) ==
        DiscordHelpers.RankEmbed(Some(StrV(o.statsName)), t.0, t.1, t.2, IntV(o.total))
  {
    if o.Ranked? {
      if DiscordHelpers.RankTable(StrList(o.data)).Ok? {
        RankedReply(command, o.statsName, o.data, o.total);
      }
    } else {
      CodeReply(command, o);
    }
  }

  /** Without a rank table the reply holds only `command` and the code, which the bot reads back. */
  lemma CodeReply(command: string, o: Outcome)
    requires !o.Ranked?
    ensures DiscordHelpers.CodeOf(ResultDict(command, o)) == IntV(Code(o))
  {
    GetAt(ResultDict(command, o).entries, "code", 1);
  }

  /** The code-0 reply is read as the rank table with its stats name and total. */
  lemma RankedReply(command: string, name: string, data: seq<string>, total: int)
    requires DiscordHelpers.RankTable(StrList(data)).Ok?
    ensures
      var t := DiscordHelpers.RankTable(StrList(data)).value;
      DiscordHelpers.StatsReplyOf(ResultDict(command, Ranked(name, data, total))) ==
        DiscordHelpers.RankEmbed(Some(StrV(name)), t.0, t.1, t.2, IntV(total))
  {
    var d := ResultDict(command, Ranked(name, data, total));
    RankedAt(command, name, data, total, "code", 1);
    RankedAt(command, name, data, total, "stats_name", 2);
    RankedAt(command, name, data, total, "data", 3);
    RankedAt(command, name, data, total, "total", 4);
    DiscordHelpers.CodeZeroReply(d, StrList(data), IntV(total));
  }

  /** The key at position `j` of the code-0 reply is read at that position. */
  lemma RankedAt(command: string, name: string, data: seq<string>, total: int, key: string, j: nat)
    requires 1 <= j <= 4
    requires key == ["command", "code", "stats_name", "data", "total"][j]
    ensures
      var e := ResultDict(command, Ranked(name, data, total)).entries;
      Get(DictV(e), key) == Some(e[j].1)
  {
    var e := ResultDict(command, Ranked(name, data, total)).entries;
    GetAt(e, key, j);
  }

  // ----- the texts of the relayed events -----

  /** The events `setup` registers a text for. */
  datatype ServerEvent =
    | ServerStartup(server: string)
    | ServerStart(server: string)
    | ServerStop(server: string)
    | PlayerChat(server: string, player: string, content: string)
    | PlayerJoined(server: string, player: string)
    | PlayerLeft(server: string, player: string)

  /** A `from_server(server_name, text, set_start=...)` call. */
  datatype FromServer = FromServer(serverName: string, text: string, setStart: bool)

  /** What each handler shows: joins and leaves pass `set_start=False`, the rest keep the default. */
  function Shown(e: ServerEvent): (r: FromServer)
    ensures r.serverName == e.server
    ensures r.setStart <==> !(e.PlayerJoined? || e.PlayerLeft?)
  {
    match e
    case ServerStartup(s) => FromServer(s, "啟動中...", true)
    case ServerStart(s) => FromServer(s, "啟動完成", true)
    case ServerStop(s) => FromServer(s, "伺服器關閉", true)
    case PlayerChat(s, p, c) => FromServer(s, "<" + p + "> " + c, true)
    case PlayerJoined(s, p) => FromServer(s, p + " 加入了 " + s, false)
    case PlayerLeft(s, p) => FromServer(s, p + " 離開了 " + s, false)
  }

  /** The first index of `c` in `s`. */
  function IndexOf(s: string, c: char): (r: Option<nat>)
    ensures r.Some? ==> r.value < |s| && s[r.value] == c && c !in s[..r.value]
    ensures r.None? ==> c !in s
  {
    if s == [] then None
    else if s[0] == c then Some(0)
    else match IndexOf(s[1..], c)
      case None => None
      case Some(j) =>
        assert s[..j + 1] == [s[0]] + s[1..][..j];
        Some(j + 1)
  }

  /** The player and content of a chat text `"<player> content"`. */
  function ParseChat(t: string): Option<(string, string)>
  {
    if t == [] || t[0] != '<' then None
    else match IndexOf(t[1..], '>')
      case None => None
      case Some(k) => if k + 1 < |t[1..]| && t[1..][k + 1] == ' ' then Some((t[1..][..k], t[1..][k + 2..])) else None
  }

  /** A chat text gives back its player and content when the player name holds no `>`. */
  lemma ChatRoundTrip(s: string, p: string, c: string)
    requires '>' !in p
    ensures ParseChat(Shown(PlayerChat(s, p, c)).text) == Some((p, c))
  {
    var t := "<" + (p + ("> " + c));
    assert Shown(PlayerChat(s, p, c)).text == t;
    var u := t[1..];
    assert u == p + ("> " + c);
    assert IndexOf(u, '>') == Some(|p|) by {
      IndexOfAfter(p, "> " + c, '>');
    }
    assert u[..|p|] == p;
    assert u[|p| + 2..] == c;
  }

  lemma {:induction false} IndexOfAfter(a: string, b: string, c: char)
    requires c !in a && b != [] && b[0] == c
    ensures IndexOf(a + b, c) == Some(|a|)
    decreases |a|
  {
    if a == [] {
      assert a + b == b;
    } else {
      assert (a + b)[1..] == a[1..] + b;
      IndexOfAfter(a[1..], b, c);
    }
  }

  /** The join and the leave text of one player on one server differ. */
  lemma JoinAndLeaveDiffer(s: string, p: string)
    ensures Shown(PlayerJoined(s, p)).text != Shown(PlayerLeft(s, p)).text
  {
    var j := Shown(PlayerJoined(s, p)).text;
    var l := Shown(PlayerLeft(s, p)).text;
    assert j[|p| + 1] == '加';
    assert l[|p| + 1] == '離';
  }
}
