/**
 * The player-list plugin of `plugins/online.py`: the parsers of the vanilla
 * `list` reply and of the BungeeCord `glist` reply, the filtering and
 * ordering at the end of `query`, and the cache of per-proxy RCON clients
 * that `on_unload` disconnects.
 */
module OnlinePlayers {
  import opened Wrappers
  import opened PyStr
  import opened PyValues
  import Rcon
  import StrDict

  // ----- pieces of the two regular expressions -----

  /** What `.*` matches from here: everything up to the first newline (`.` matches any other character). */
  function RestOfLine(s: string): (r: string)
    ensures |r| <= |s| && r == s[..|r|]
    ensures '\n' !in r
    ensures |r| == |s| || s[|r|] == '\n'
  {
    if s == [] || s[0] == '\n' then "" else [s[0]] + RestOfLine(s[1..])
  }

  /** The length of the leading run of digits: what a greedy `\d+` or `\d*` takes. */
  function DigitRun(s: string): (k: nat)
    ensures k <= |s|
    ensures forall i :: 0 <= i < k ==> IsDigit(s[i])
    ensures k == |s| || !IsDigit(s[k])
  {
    if s != [] && IsDigit(s[0]) then 1 + DigitRun(s[1..]) else 0
  }

  predicate AllDigits(s: string)
  {
    forall i :: 0 <= i < |s| ==> IsDigit(s[i])
  }

  /** `\d+` then the literal `lit`: the text after both. Backing off a digit cannot help, since `lit` starts with a non-digit. */
  function AfterNumber(s: string, lit: string): (r: Option<string>)
    ensures r.Some? ==> DigitRun(s) >= 1 && |r.value| + |lit| + DigitRun(s) == |s|
  {
    var k := DigitRun(s);
    if k >= 1 && StartsWith(s[k..], lit) then Some(s[k + |lit|..]) else None
  }

  // ----- handle_minecraft -----

  /**
   * `minecraft_list_match.match(data)`, group 1:
   * `There are \d+ of a max(?: of)? \d+ players online:(.*)` from the start
   * of the text. The optional ` of` is taken when present; giving it back
   * cannot rescue a failed match, since the next `\d+` would face an `o`.
   */
  function ListMatch(data: string): (r: Option<string>)
    ensures r.Some? ==> StartsWith(data, "There are ") && '\n' !in r.value
  {
    if !StartsWith(data, "There are ") then None
    else match AfterNumber(data[10..], " of a max")
      case None => None
      case Some(rest) =>
        var rest2 := if StartsWith(rest, " of") then rest[3..] else rest;
        if !StartsWith(rest2, " ") then None
        else match AfterNumber(rest2[1..], " players online:")
          case None => None
          case Some(tail) => Some(RestOfLine(tail))
  }

  /** `set(i.strip() for i in g.split(",") if i)`: empty pieces are skipped, kept pieces stripped. */
  function NameSet(g: string): set<string>
  {
    var pieces := Split(g, ',');
    set i | 0 <= i < |pieces| && pieces[i] != "" :: Strip(pieces[i])
  }

  /** Every name `NameSet` collects is free of commas and of surrounding whitespace. */
  lemma NameSetClean(g: string)
    ensures forall n :: n in NameSet(g) ==> ',' !in n && (n == [] || (!IsSpace(n[0]) && !IsSpace(n[|n| - 1])))
  {
    var pieces := Split(g, ',');
    SplitPiecesAvoidSep(g, ',');
    forall n | n in NameSet(g)
      ensures ',' !in n && (n == [] || (!IsSpace(n[0]) && !IsSpace(n[|n| - 1])))
    {
      var i :| 0 <= i < |pieces| && pieces[i] != "" && n == Strip(pieces[i]);
      assert ',' !in pieces[i];
    }
  }

  /** `Online.handle_minecraft(data)`: the names of a `list` reply; anything else gives the empty set. */
  function HandleMinecraft(data: string): (r: set<string>)
    ensures ListMatch(data).None? ==> r == {}
    ensures !StartsWith(data, "There are ") ==> r == {}
  {
    match ListMatch(data)
    case None => {}
    case Some(g) => NameSet(g)
  }

  /** The reply of a server's `list` command: the pre-1.16 form, or with `ofForm` the `max of` form. */
  function ListReply(n: string, m: string, ofForm: bool, names: seq<string>): string
  {
    "There are " + (n + (" of a max" + ((if ofForm then " of" else "") + (" " + (m + (" players online:" + (" " + Join(", ", names))))))))
  }

  /**
   * Both forms of the `list` reply give back the set of the stripped
   * names; with nobody online the trailing space makes the set `{""}`.
   */
  lemma ListReplyRoundTrip(n: string, m: string, ofForm: bool, names: seq<string>)
    requires n != "" && AllDigits(n) && m != "" && AllDigits(m)
    requires forall i :: 0 <= i < |names| ==> ',' !in names[i] && '\n' !in names[i]
    ensures HandleMinecraft(ListReply(n, m, ofForm, names)) ==
      if names == [] then {""} else set i | 0 <= i < |names| :: Strip(names[i])
  {
    ListMatchOfReply(n, m, ofForm, names);
    NameSetOfJoin(names);
  }

  lemma ListMatchOfReply(n: string, m: string, ofForm: bool, names: seq<string>)
    requires n != "" && AllDigits(n) && m != "" && AllDigits(m)
    requires forall i :: 0 <= i < |names| ==> '\n' !in names[i]
    ensures ListMatch(ListReply(n, m, ofForm, names)) == Some(" " + Join(", ", names))
  {
    var tail := " " + Join(", ", names);
    var rest2 := " " + (m + (" players online:" + tail));
    var rest := (if ofForm then " of" else "") + rest2;
    ReplyParts(n, m, ofForm, tail, rest2, rest, ListReply(n, m, ofForm, names));
    NamesTailOneLine(names);
    ListMatchSteps(ListReply(n, m, ofForm, names), rest, rest2, tail);
  }

  /** Each piece of a `list` reply is read off by the step of `ListMatch` that expects it. */
  lemma ReplyParts(n: string, m: string, ofForm: bool, tail: string, rest2: string, rest: string, data: string)
    requires n != "" && AllDigits(n) && m != "" && AllDigits(m)
    requires rest2 == " " + (m + (" players online:" + tail))
    requires rest == (if ofForm then " of" else "") + rest2
    requires data == "There are " + (n + (" of a max" + rest))
    ensures StartsWith(data, "There are ") && AfterNumber(data[10..], " of a max") == Some(rest)
    ensures StartsWith(rest, " of") ==> rest[3..] == rest2
    ensures !StartsWith(rest, " of") ==> rest == rest2
    ensures StartsWith(rest2, " ") && AfterNumber(rest2[1..], " players online:") == Some(tail)
  {
    ReplyHead(n, rest, data);
    assert rest2[1] == m[0];
    OptionalOf(rest, rest2, ofForm);
    assert rest2[1..] == m + (" players online:" + tail);
    AfterNumberOf(m, " players online:", tail);
  }

  /** Names without line breaks, joined after a space, are the whole rest of the line. */
  lemma NamesTailOneLine(names: seq<string>)
    requires forall i :: 0 <= i < |names| ==> '\n' !in names[i]
    ensures RestOfLine(" " + Join(", ", names)) == " " + Join(", ", names)
  {
    assert '\n' !in ", ";
    JoinAvoids(", ", names, '\n');
    RestOfLineWhole(" " + Join(", ", names));
  }

  /** `There are`, the first number and ` of a max` are taken from the front of the reply. */
  lemma ReplyHead(n: string, rest: string, data: string)
    requires n != "" && AllDigits(n) && data == "There are " + (n + (" of a max" + rest))
    ensures StartsWith(data, "There are ") && AfterNumber(data[10..], " of a max") == Some(rest)
  {
    assert data[10..] == n + (" of a max" + rest);
    AfterNumberOf(n, " of a max", rest);
  }

  /** The optional ` of` is taken exactly when the reply has it. */
  lemma OptionalOf(rest: string, rest2: string, ofForm: bool)
    requires |rest2| > 1 && rest2[0] == ' ' && IsDigit(rest2[1])
    requires rest == (if ofForm then " of" else "") + rest2
    ensures StartsWith(rest, " of") ==> rest[3..] == rest2
    ensures !StartsWith(rest, " of") ==> rest == rest2
  {
    if ofForm {
      assert rest[3..] == rest2;
    } else {
      assert "" + rest2 == rest2;
      NotStartsWith(rest, " of", 1);
    }
  }

  /** A number, then `lit`, then `rest`: `\d+` takes the whole number. */
  lemma AfterNumberOf(n: string, lit: string, rest: string)
    requires n != "" && AllDigits(n) && lit != "" && !IsDigit(lit[0])
    ensures AfterNumber(n + (lit + rest), lit) == Some(rest)
  {
    DigitRunPrefix(n, lit + rest);
    assert (n + (lit + rest))[|n|..] == lit + rest;
    assert (lit + rest)[|lit|..] == rest;
  }

  /** The steps of `ListMatch` with the intermediate texts named. */
  lemma ListMatchSteps(data: string, rest: string, rest2: string, tail: string)
    requires StartsWith(data, "There are ") && AfterNumber(data[10..], " of a max") == Some(rest)
    requires StartsWith(rest, " of") ==> rest[3..] == rest2
    requires !StartsWith(rest, " of") ==> rest == rest2
    requires StartsWith(rest2, " ") && AfterNumber(rest2[1..], " players online:") == Some(tail)
    ensures ListMatch(data) == Some(RestOfLine(tail))
  {
  }

  lemma NotStartsWith(s: string, p: string, i: nat)
    requires i < |p| && (i < |s| ==> s[i] != p[i])
    ensures !StartsWith(s, p)
  {
    if |p| <= |s| {
      assert s[..|p|][i] == s[i];
    }
  }

  /** `" " + ", ".join(names)` splits on commas into the names, each after a space. */
  lemma NameSetOfJoin(names: seq<string>)
    requires forall i :: 0 <= i < |names| ==> ',' !in names[i]
    ensures NameSet(" " + Join(", ", names)) ==
      if names == [] then {""} else set i | 0 <= i < |names| :: Strip(names[i])
  {
    if names == [] {
      assert " " + Join(", ", names) == " ";
      NameSetOfSpace();
    } else {
      SplitJoinComma(names);
      StrippedPieces(Split(" " + Join(", ", names), ','), names);
    }
  }

  /** With nobody online the single piece `" "` strips to `""`. */
  lemma NameSetOfSpace()
    ensures NameSet(" ") == {""}
  {
    var pieces := Split(" ", ',');
    SplitNoSep(" ", ',');
    assert Strip(" ") == "" by {
      assert " "[1..] == "";
    }
    forall x | x in NameSet(" ")
      ensures x == ""
    {
      var i :| 0 <= i < |pieces| && pieces[i] != "" && x == Strip(pieces[i]);
      assert i == 0;
    }
    assert pieces[0] == " ";
    assert "" in NameSet(" ");
  }

  /** Pieces that are the names after a space are all kept, and strip to the stripped names. */
  lemma StrippedPieces(pieces: seq<string>, names: seq<string>)
    requires |pieces| == |names|
    requires forall i :: 0 <= i < |names| ==> pieces[i] == " " + names[i]
    ensures (set i | 0 <= i < |pieces| && pieces[i] != "" :: Strip(pieces[i])) ==
      set i | 0 <= i < |names| :: Strip(names[i])
  {
    var lhs := set i | 0 <= i < |pieces| && pieces[i] != "" :: Strip(pieces[i]);
    var target := set i | 0 <= i < |names| :: Strip(names[i]);
    forall x | x in lhs
      ensures x in target
    {
      var i :| 0 <= i < |pieces| && pieces[i] != "" && x == Strip(pieces[i]);
      StripLeadingSpace(names[i]);
    }
    forall x | x in target
      ensures x in lhs
    {
      var i :| 0 <= i < |names| && x == Strip(names[i]);
      StripLeadingSpace(names[i]);
      assert pieces[i] != "";
    }
  }

  lemma {:induction false} SplitJoinComma(names: seq<string>)
    requires names != []
    requires forall i :: 0 <= i < |names| ==> ',' !in names[i]
    ensures |Split(" " + Join(", ", names), ',')| == |names|
    ensures forall i :: 0 <= i < |names| ==> Split(" " + Join(", ", names), ',')[i] == " " + names[i]
    decreases |names|
  {
    if |names| == 1 {
      assert ',' !in " " + names[0];
      SplitNoSep(" " + names[0], ',');
    } else {
      var rest := names[1..];
      assert forall i :: 0 <= i < |rest| ==> rest[i] == names[i + 1];
      SplitJoinComma(rest);
      assert ',' !in " " + names[0];
      assert " " + Join(", ", names) == (" " + names[0]) + [','] + (" " + Join(", ", rest));
      SplitAfterWord(" " + names[0], ',', " " + Join(", ", rest));
    }
  }

  lemma StripLeadingSpace(x: string)
    ensures Strip(" " + x) == Strip(x)
  {
    assert (" " + x)[1..] == x;
  }

  lemma {:induction false} DigitRunPrefix(n: string, x: string)
    requires AllDigits(n)
    requires x == [] || !IsDigit(x[0])
    ensures DigitRun(n + x) == |n|
    decreases |n|
  {
    if n != [] {
      assert (n + x)[1..] == n[1..] + x;
      DigitRunPrefix(n[1..], x);
    } else {
      assert n + x == x;
    }
  }

  lemma {:induction false} RestOfLineWhole(s: string)
    requires '\n' !in s
    ensures RestOfLine(s) == s
    decreases |s|
  {
    if s != [] {
      RestOfLineWhole(s[1..]);
      assert [s[0]] + s[1..] == s;
    }
  }

  // ----- handle_bungee -----

  /** Where `\] \(\d*\):` matches at `j`, the index after the `):`, where group 2 starts. */
  function CloseAt(line: string, j: nat): (r: Option<nat>)
    ensures r.Some? ==> j + 5 <= r.value <= |line| && line[j] == ']'
  {
    if j + 3 <= |line| && line[j] == ']' && line[j + 1] == ' ' && line[j + 2] == '(' then
      var k := DigitRun(line[j + 3..]);
      if j + 3 + k + 2 <= |line| && line[j + 3 + k] == ')' && line[j + 3 + k + 1] == ':' then Some(j + 3 + k + 2) else None
    else None
  }

  /** The largest `j` in `[1, hi)` at which `\] \(\d*\):` matches: where the greedy `(.*)` stops. */
  function LastClose(line: string, hi: nat): (r: Option<nat>)
    ensures r.Some? ==> 1 <= r.value < hi && CloseAt(line, r.value).Some?
    ensures forall j :: 1 <= j < hi && CloseAt(line, j).Some? ==> r.Some? && j <= r.value
    decreases hi
  {
    if hi <= 1 then None
    else if CloseAt(line, hi - 1).Some? then Some(hi - 1)
    else LastClose(line, hi - 1)
  }

  /**
   * `minecraft_GList_match.match(data)`, groups 1 and 2:
   * `\[(.*)\] \(\d*\):((?:.*[ ,]?)+)` from the start of the text. No part
   * of it matches a newline, so only the first line takes part; group 2,
   * which can match the empty text, takes the rest of that line.
   */
  function GListMatch(data: string): (r: Option<(string, string)>)
    ensures r.Some? ==> StartsWith(data, "[")
  {
    var line := RestOfLine(data);
    if !StartsWith(line, "[") then None
    else match LastClose(line, |line|)
      case None => None
      case Some(j) => Some((line[1..j], line[CloseAt(line, j).value..]))
  }

  /** The line of a `glist` reply for one server. */
  function GListLine(server: string, count: string, players: seq<string>): string
  {
    "[" + (server + ("] (" + (count + ("):" + (" " + Join(", ", players))))))
  }

  /**
   * A `glist` line gives back the server's name, whatever brackets the
   * name holds (the greedy group runs to the last `] (N):`), and its
   * players.
   */
  lemma GListLineRoundTrip(server: string, count: string, players: seq<string>)
    requires '\n' !in server && AllDigits(count)
    requires forall i :: 0 <= i < |players| ==> ',' !in players[i] && '\n' !in players[i] && ']' !in players[i]
    ensures GListMatch(GListLine(server, count, players)) == Some((server, " " + Join(", ", players)))
    ensures NameSet(GListMatch(GListLine(server, count, players)).value.1) ==
      if players == [] then {""} else set i | 0 <= i < |players| :: Strip(players[i])
  {
    var tail := " " + Join(", ", players);
    JoinAvoids(", ", players, '\n');
    JoinAvoids(", ", players, ']');
    GListMatchOf(server, count, tail);
    NameSetOfJoin(players);
  }

  lemma GListMatchOf(server: string, count: string, tail: string)
    requires '\n' !in server && AllDigits(count) && '\n' !in tail && ']' !in tail
    ensures GListMatch("[" + (server + ("] (" + (count + ("):" + tail))))) == Some((server, tail))
  {
    var x := "] (" + (count + ("):" + tail));
    var line := "[" + (server + x);
    var close := |server| + 1;
    assert line == ("[" + server) + x;
    assert line[close..] == x;
    assert line[1..close] == server;
    assert RestOfLine(line) == line by {
      DigitsAvoid(count, '\n');
      assert '\n' !in x;
      RestOfLineWhole(line);
    }
    CloseAtSuffix(line, close, count, tail);
    NoCloseAfter(line, close, count, tail);
    LastCloseIs(line, close);
    GListMatchParts(line, close, server, tail);
  }

  /** After the `]` of `] (N):`, the rest of the line holds no `]`. */
  lemma NoCloseAfter(line: string, close: nat, count: string, tail: string)
    requires close <= |line| && line[close..] == "] (" + (count + ("):" + tail))
    requires AllDigits(count) && ']' !in tail
    ensures forall k :: close < k < |line| ==> line[k] != ']'
  {
    var x := line[close..];
    var z := count + ("):" + tail);
    DigitsAvoid(count, ']');
    assert ']' !in "):";
    assert ']' !in z;
    forall k | close < k < |line|
      ensures line[k] != ']'
    {
      var i := k - close;
      assert line[k] == x[i];
      if i < 3 {
        assert x[i] == "] ("[i];
      } else {
        assert x[i] == z[i - 3];
      }
    }
  }

  /** The last match of `] (N):` is the one after which no `]` follows. */
  lemma LastCloseIs(line: string, close: nat)
    requires 1 <= close < |line| && CloseAt(line, close).Some?
    requires forall k :: close < k < |line| ==> line[k] != ']'
    ensures LastClose(line, |line|) == Some(close)
  {
  }

  /** `GListMatch` with its two groups' bounds named. */
  lemma GListMatchParts(line: string, close: nat, server: string, tail: string)
    requires RestOfLine(line) == line && StartsWith(line, "[")
    requires LastClose(line, |line|) == Some(close) && line[1..close] == server
    requires CloseAt(line, close).Some? && line[CloseAt(line, close).value..] == tail
    ensures GListMatch(line) == Some((server, tail))
  {
  }


  lemma DigitsAvoid(s: string, c: char)
    requires AllDigits(s) && !IsDigit(c)
    ensures c !in s
  {
  }

  /** `\] \(\d*\):` at `j`, read off the text that follows. */
  lemma CloseAtSuffix(line: string, j: nat, count: string, tail: string)
    requires j <= |line| && line[j..] == "] (" + (count + ("):" + tail)) && AllDigits(count)
    ensures CloseAt(line, j) == Some(j + 5 + |count|)
    ensures line[j + 5 + |count|..] == tail
  {
    var x := line[j..];
    assert line[j + 3..] == x[3..] == count + ("):" + tail);
    DigitRunPrefix(count, "):" + tail);
    assert line[j + 3 + |count|..] == x[3 + |count|..] == "):" + tail;
    assert line[j + 5 + |count|..] == x[5 + |count|..] == tail;
  }

  const TotalPrefix: string := "Total players online:"

  predicate HasTotalLine(lines: seq<string>)
  {
    exists k :: 0 <= k < |lines| && StartsWith(lines[k], TotalPrefix)
  }

  /**
   * What `handle_bungee` returns: `None` once any line starts with
   * `Total players online:`; otherwise the entry of the match, which each
   * iteration takes on the whole text, hence from its first line.
   */
  function Bungee(data: string): (r: Option<map<string, set<string>>>)
    ensures r.None? <==> HasTotalLine(SplitLines(data))
    ensures r.Some? ==> forall k :: k in r.value ==> GListMatch(data).Some? && k == GListMatch(data).value.0
    ensures data == [] ==> r == Some(map[])
  {
    var lines := SplitLines(data);
    var parsed := GListMatch(data);
    if HasTotalLine(lines) then None
    else if lines != [] && parsed.Some? then Some(map[parsed.value.0 := NameSet(parsed.value.1)])
    else Some(map[])
  }

  /** Every line starts with `Total players online:`. */
  predicate AllTotalLines(lines: seq<string>)
  {
    forall k :: 0 <= k < |lines| ==> StartsWith(lines[k], TotalPrefix)
  }

  lemma TotalLinesStep(lines: seq<string>, i: nat)
    requires i < |lines|
    ensures HasTotalLine(lines[..i + 1]) == (HasTotalLine(lines[..i]) || StartsWith(lines[i], TotalPrefix))
    ensures AllTotalLines(lines[..i + 1]) == (AllTotalLines(lines[..i]) && StartsWith(lines[i], TotalPrefix))
  {
    var p := lines[..i + 1];
    assert p[..i] == lines[..i] && p[i] == lines[i];
    if HasTotalLine(p) {
      var k :| 0 <= k < |p| && StartsWith(p[k], TotalPrefix);
      if k < i {
        assert lines[..i][k] == p[k];
      }
    }
    if HasTotalLine(lines[..i]) {
      var k :| 0 <= k < i && StartsWith(lines[..i][k], TotalPrefix);
      assert p[k] == lines[..i][k];
    }
  }

  /** `Online.handle_bungee(data)`, as its loop runs. */
  method HandleBungee(data: string) returns (r: Option<map<string, set<string>>>)
    ensures r == Bungee(data)
  {
    var result: map<string, set<string>> := map[];
    var noCommand := false;
    var lines := SplitLines(data);
    ghost var g := GListMatch(data);
    for i := 0 to |lines|
      invariant noCommand == HasTotalLine(lines[..i])
      invariant result == if !AllTotalLines(lines[..i]) && g.Some? then map[g.value.0 := NameSet(g.value.1)] else map[]
    {
      TotalLinesStep(lines, i);
      if StartsWith(lines[i], TotalPrefix) {
        noCommand := true;
        continue;
      }
      var parsed := GListMatch(data);
      if parsed.Some? {
        result := result[parsed.value.0 := NameSet(parsed.value.1)];
      }
    }
    assert lines[..|lines|] == lines;
    if noCommand {
      return None;
    }
    if lines != [] {
      assert !StartsWith(lines[0], TotalPrefix);
    }
    return Some(result);
  }

  // ----- handle_bungee, matching each line -----

  /** `line` is a server line of a `glist` reply, for the server `server`. */
  predicate ServerLineOf(line: string, server: string)
  {
    !StartsWith(line, TotalPrefix) && GListMatch(line).Some? && GListMatch(line).value.0 == server
  }

  /** The entries the parser collects when each iteration matches its own line: a later line for the same server wins. */
  function BungeeByLine(lines: seq<string>): map<string, set<string>>
  {
    if lines == [] then map[]
    else
      var prev := BungeeByLine(lines[..|lines| - 1]);
      var l := lines[|lines| - 1];
      var parsed := GListMatch(l);
      if !StartsWith(l, TotalPrefix) && parsed.Some? then prev[parsed.value.0 := NameSet(parsed.value.1)] else prev
  }

  /** Every server stored is named by some server line. */
  lemma {:induction false} BungeeByLineKeys(lines: seq<string>)
    ensures forall k :: k in BungeeByLine(lines) ==> exists i :: 0 <= i < |lines| && ServerLineOf(lines[i], k)
    decreases |lines|
  {
    if lines != [] {
      var init := lines[..|lines| - 1];
      var last := lines[|lines| - 1];
      BungeeByLineKeys(init);
      forall k | k in BungeeByLine(lines)
        ensures exists i :: 0 <= i < |lines| && ServerLineOf(lines[i], k)
      {
        if k in BungeeByLine(init) {
          var i :| 0 <= i < |init| && ServerLineOf(init[i], k);
          assert lines[i] == init[i];
        } else {
          assert ServerLineOf(last, k);
        }
      }
    }
  }

  /** Every server some server line names is stored. */
  lemma BungeeByLineListed(lines: seq<string>)
    ensures forall i, k :: 0 <= i < |lines| && ServerLineOf(lines[i], k) ==> k in BungeeByLine(lines)
  {
    forall i, k | 0 <= i < |lines| && ServerLineOf(lines[i], k)
      ensures k in BungeeByLine(lines)
    {
      EveryServerListed(lines, i);
    }
  }

  lemma BungeeByLineStep(lines: seq<string>, i: nat)
    requires i < |lines|
    ensures BungeeByLine(lines[..i + 1]) ==
      var parsed := GListMatch(lines[i]);
      if !StartsWith(lines[i], TotalPrefix) && parsed.Some? then BungeeByLine(lines[..i])[parsed.value.0 := NameSet(parsed.value.1)]
      else BungeeByLine(lines[..i])
  {
    assert lines[..i + 1][..i] == lines[..i];
  }

  /** `handle_bungee` with `minecraft_GList_match.match(line)` in the loop. */
  method HandleBungeeByLine(data: string) returns (r: Option<map<string, set<string>>>)
    ensures r == if HasTotalLine(SplitLines(data)) then None else Some(BungeeByLine(SplitLines(data)))
  {
    var result: map<string, set<string>> := map[];
    var noCommand := false;
    var lines := SplitLines(data);
    for i := 0 to |lines|
      invariant noCommand == HasTotalLine(lines[..i])
      invariant result == BungeeByLine(lines[..i])
    {
      TotalLinesStep(lines, i);
      BungeeByLineStep(lines, i);
      if StartsWith(lines[i], TotalPrefix) {
        noCommand := true;
        continue;
      }
      var parsed := GListMatch(lines[i]);
      if parsed.Some? {
        result := result[parsed.value.0 := NameSet(parsed.value.1)];
      }
    }
    assert lines[..|lines|] == lines;
    if noCommand {
      return None;
    }
    return Some(result);
  }

  /** Matching each line, every server line is listed, with its own players unless a later line names the same server. */
  lemma {:induction false} EveryServerListed(lines: seq<string>, k: nat)
    requires k < |lines| && !StartsWith(lines[k], TotalPrefix) && GListMatch(lines[k]).Some?
    ensures GListMatch(lines[k]).value.0 in BungeeByLine(lines)
    ensures (forall k' :: k < k' < |lines| && !StartsWith(lines[k'], TotalPrefix) && GListMatch(lines[k']).Some? ==>
               GListMatch(lines[k']).value.0 != GListMatch(lines[k]).value.0) ==>
            BungeeByLine(lines)[GListMatch(lines[k]).value.0] == NameSet(GListMatch(lines[k]).value.1)
    decreases |lines|
  {
    var init := lines[..|lines| - 1];
    var last := lines[|lines| - 1];
    var prev := BungeeByLine(init);
    assert BungeeByLine(lines) ==
      if !StartsWith(last, TotalPrefix) && GListMatch(last).Some? then prev[GListMatch(last).value.0 := NameSet(GListMatch(last).value.1)]
      else prev;
    if k < |lines| - 1 {
      assert forall i :: 0 <= i < |init| ==> init[i] == lines[i];
      EveryServerListed(init, k);
    }
  }

  /** `l0 + "\n" + l1` is the two lines. */
  lemma TwoLines(l0: string, l1: string)
    requires forall i :: 0 <= i < |l0| ==> !IsLineBreak(l0[i])
    requires l1 != [] && forall i :: 0 <= i < |l1| ==> !IsLineBreak(l1[i])
    ensures SplitLines(l0 + ("\n" + l1)) == [l0, l1]
    ensures RestOfLine(l0 + ("\n" + l1)) == l0
  {
    SplitLinesFirst(l0, "\n" + l1);
    assert ("\n" + l1)[1..] == l1;
    SplitLinesOne(l1);
    assert forall i :: 0 <= i < |l0| ==> l0[i] != '\n';
    RestOfLinePrefix(l0, "\n" + l1);
  }

  /** A line ended by a newline splits off. */
  lemma SplitLinesFirst(a: string, b: string)
    requires forall i :: 0 <= i < |a| ==> !IsLineBreak(a[i])
    requires b != [] && b[0] == '\n'
    ensures SplitLines(a + b) == [a] + SplitLines(b[1..])
  {
    var s := a + b;
    LineLengthWhole(a, b);
    assert s[..|a|] == a;
    assert s[|a|] == '\n';
    assert s[|a| + 1..] == b[1..];
  }

  /** A text without line breaks is one line. */
  lemma SplitLinesOne(l: string)
    requires l != [] && forall i :: 0 <= i < |l| ==> !IsLineBreak(l[i])
    ensures SplitLines(l) == [l]
  {
    LineLengthWhole(l, "");
    assert l + "" == l;
  }

  lemma {:induction false} LineLengthWhole(a: string, b: string)
    requires forall i :: 0 <= i < |a| ==> !IsLineBreak(a[i])
    requires b == [] || IsLineBreak(b[0])
    ensures LineLength(a + b) == |a|
    decreases |a|
  {
    if a != [] {
      assert (a + b)[1..] == a[1..] + b;
      LineLengthWhole(a[1..], b);
    } else {
      assert a + b == b;
    }
  }

  lemma {:induction false} RestOfLinePrefix(a: string, b: string)
    requires '\n' !in a && b != [] && b[0] == '\n'
    ensures RestOfLine(a + b) == a
    decreases |a|
  {
    if a != [] {
      assert (a + b)[1..] == a[1..] + b;
      RestOfLinePrefix(a[1..], b);
      assert [a[0]] + a[1..] == a;
    } else {
      assert a + b == b;
    }
  }

  /**
   * Two server lines without a total line: matching the whole text each
   * time lists only the first server.
   */
  lemma AsWrittenListsFirstServerOnly(l0: string, l1: string)
    requires forall i :: 0 <= i < |l0| ==> !IsLineBreak(l0[i])
    requires l1 != [] && forall i :: 0 <= i < |l1| ==> !IsLineBreak(l1[i])
    requires !StartsWith(l0, TotalPrefix) && !StartsWith(l1, TotalPrefix)
    requires GListMatch(l0).Some? && GListMatch(l1).Some? && GListMatch(l0).value.0 != GListMatch(l1).value.0
    ensures Bungee(l0 + ("\n" + l1)) == Some(map[GListMatch(l0).value.0 := NameSet(GListMatch(l0).value.1)])
    ensures GListMatch(l1).value.0 !in Bungee(l0 + ("\n" + l1)).value
  {
    TwoLines(l0, l1);
    assert !HasTotalLine([l0, l1]);
    assert GListMatch(l0 + ("\n" + l1)) == GListMatch(l0) by {
      RestOfLineWhole(l0);
    }
  }

  /** The same two lines, matched line by line, list both servers with their players. */
  lemma ByLineListsBothServers(l0: string, l1: string)
    requires forall i :: 0 <= i < |l0| ==> !IsLineBreak(l0[i])
    requires l1 != [] && forall i :: 0 <= i < |l1| ==> !IsLineBreak(l1[i])
    requires !StartsWith(l0, TotalPrefix) && !StartsWith(l1, TotalPrefix)
    requires GListMatch(l0).Some? && GListMatch(l1).Some? && GListMatch(l0).value.0 != GListMatch(l1).value.0
    ensures !HasTotalLine(SplitLines(l0 + ("\n" + l1)))
    ensures BungeeByLine(SplitLines(l0 + ("\n" + l1))) ==
      map[GListMatch(l0).value.0 := NameSet(GListMatch(l0).value.1), GListMatch(l1).value.0 := NameSet(GListMatch(l1).value.1)]
  {
    TwoLines(l0, l1);
    ByLineTwo(l0, l1);
  }

  lemma ByLineTwo(l0: string, l1: string)
    requires !StartsWith(l0, TotalPrefix) && !StartsWith(l1, TotalPrefix)
    requires GListMatch(l0).Some? && GListMatch(l1).Some?
    ensures !HasTotalLine([l0, l1])
    ensures BungeeByLine([l0, l1]) ==
      map[GListMatch(l0).value.0 := NameSet(GListMatch(l0).value.1), GListMatch(l1).value.0 := NameSet(GListMatch(l1).value.1)]
  {
    var g0, g1 := GListMatch(l0).value, GListMatch(l1).value;
    assert [l0][..0] == [];
    assert BungeeByLine([l0]) == map[g0.0 := NameSet(g0.1)];
    assert [l0, l1][..1] == [l0];
    assert BungeeByLine([l0, l1]) == BungeeByLine([l0])[g1.0 := NameSet(g1.1)];
  }

  // ----- the end of query -----

  /** A session `Context` as a key of the query's result: its identity (the session id) and its `name`. */
  datatype ContextKey = ContextKey(sid: string, name: string)

  type Entry = (ContextKey, set<string>)

  /** `set(s for s in v if s.strip())` */
  function NonBlank(v: set<string>): (r: set<string>)
    ensures r <= v
    ensures forall s :: s in v ==> (s in r <==> Strip(s) != "")
  {
    set s | s in v && Strip(s) != ""
  }

  /** The comprehension of `query`: contexts named in `query_online_names`, with their non-blank names. */
  function Filter(result: seq<Entry>, names: seq<string>): (r: seq<Entry>)
    ensures |r| <= |result|
    ensures forall i :: 0 <= i < |r| ==> r[i].0.name in names
  {
    if result == [] then []
    else (if result[0].0.name in names then [(result[0].0, NonBlank(result[0].1))] else []) + Filter(result[1..], names)
  }

  /** An entry survives the filter exactly when its context is configured; its names lose the blank ones. */
  lemma {:induction false} FilterMeaning(result: seq<Entry>, names: seq<string>, k: ContextKey, v: set<string>)
    ensures (k, v) in Filter(result, names) <==> k.name in names && exists w :: (k, w) in result && v == NonBlank(w)
    decreases |result|
  {
    if result != [] {
      FilterMeaning(result[1..], names, k, v);
      if k.name in names && (exists w :: (k, w) in result && v == NonBlank(w)) {
        var w :| (k, w) in result && v == NonBlank(w);
        if (k, w) != result[0] {
          assert (k, w) in result[1..];
        }
      }
    }
  }

  predicate DistinctNames(s: seq<Entry>)
  {
    forall i, j :: 0 <= i < j < |s| ==> s[i].0.name != s[j].0.name
  }

  lemma {:induction false} FilterDistinct(result: seq<Entry>, names: seq<string>)
    requires DistinctNames(result)
    ensures DistinctNames(Filter(result, names))
    decreases |result|
  {
    if result != [] {
      var rest := result[1..];
      assert forall i :: 0 <= i < |rest| ==> rest[i] == result[i + 1];
      FilterDistinct(rest, names);
      var f := Filter(rest, names);
      forall i | 0 <= i < |f|
        ensures f[i].0.name != result[0].0.name
      {
        FilterMeaning(rest, names, f[i].0, f[i].1);
        assert f[i] in f;
        var w :| (f[i].0, w) in rest && f[i].1 == NonBlank(w);
        var j :| 0 <= j < |rest| && rest[j] == (f[i].0, w);
        assert rest[j] == result[j + 1];
      }
    }
  }

  /** The first entry whose context is named `id`. */
  function FirstNamed(s: seq<Entry>, id: string): (r: Option<nat>)
    ensures r.Some? ==> r.value < |s| && s[r.value].0.name == id
    ensures r.Some? ==> forall k :: 0 <= k < r.value ==> s[k].0.name != id
    ensures r.None? ==> forall k :: 0 <= k < |s| ==> s[k].0.name != id
  {
    if s == [] then None
    else if s[0].0.name == id then Some(0)
    else match FirstNamed(s[1..], id)
      case None => None
      case Some(j) => Some(j + 1)
  }

  function RemoveAt(s: seq<Entry>, j: nat): (r: seq<Entry>)
    requires j < |s|
    ensures |r| == |s| - 1
  {
    s[..j] + s[j + 1..]
  }

  /** The list `query(order=True)` returns: per configured name in turn, the first remaining context of that name. */
  function Ordered(s: seq<Entry>, names: seq<string>): (r: seq<Entry>)
    ensures |r| <= |names|
    decreases |names|
  {
    if names == [] then []
    else match FirstNamed(s, names[0])
      case None => Ordered(s, names[1..])
      case Some(j) => [s[j]] + Ordered(RemoveAt(s, j), names[1..])
  }

  /** The `order=True` branch of `query`: for each name, the first match is appended and popped; `break` ends the scan. */
  method OrderByNames(result: seq<Entry>, names: seq<string>) returns (ret: seq<Entry>)
    ensures ret == Ordered(result, names)
  {
    ret := [];
    var rest := result;
    for i := 0 to |names|
      invariant ret + Ordered(rest, names[i..]) == Ordered(result, names)
    {
      var id := names[i];
      ghost var ret0, rest0 := ret, rest;
      ghost var found := false;
      var j := 0;
      while j < |rest|
        invariant 0 <= j <= |rest| && ret == ret0 && rest == rest0 && !found
        invariant forall k :: 0 <= k < j ==> rest[k].0.name != id
      {
        if rest[j].0.name == id {
          assert FirstNamed(rest0, id) == Some(j);
          OrderedTake(rest0, names, i, j);
          ret := ret + [rest[j]];
          rest := rest[..j] + rest[j + 1..];
          AppendRegroup(ret0, rest0[j], Ordered(rest, names[i + 1..]));
          found := true;
          break;
        }
        j := j + 1;
      }
      if !found {
        OrderedSkip(rest, names, i);
      }
    }
  }

  /** A configured name with no remaining context contributes nothing. */
  lemma OrderedSkip(s: seq<Entry>, names: seq<string>, i: nat)
    requires i < |names| && forall k :: 0 <= k < |s| ==> s[k].0.name != names[i]
    ensures Ordered(s, names[i..]) == Ordered(s, names[i + 1..])
  {
    assert names[i..][0] == names[i] && names[i..][1..] == names[i + 1..];
    assert FirstNamed(s, names[i]).None?;
  }

  /** A configured name takes its first remaining context out of the list. */
  lemma OrderedTake(s: seq<Entry>, names: seq<string>, i: nat, j: nat)
    requires i < |names| && FirstNamed(s, names[i]) == Some(j)
    ensures Ordered(s, names[i..]) == [s[j]] + Ordered(s[..j] + s[j + 1..], names[i + 1..])
  {
    assert names[i..][0] == names[i] && names[i..][1..] == names[i + 1..];
  }

  lemma AppendRegroup<T>(a: seq<T>, x: T, b: seq<T>)
    ensures (a + [x]) + b == a + ([x] + b)
  {
  }

  /** `a` is a subsequence of `b`. */
  predicate Subsequence(a: seq<string>, b: seq<string>)
    decreases |b|
  {
    if a == [] then true
    else if b == [] then false
    else (a[0] == b[0] && Subsequence(a[1..], b[1..])) || Subsequence(a, b[1..])
  }

  function NamesOf(s: seq<Entry>): (r: seq<string>)
    ensures |r| == |s| && forall i :: 0 <= i < |s| ==> r[i] == s[i].0.name
  {
    if s == [] then [] else [s[0].0.name] + NamesOf(s[1..])
  }

  /**
   * The ordered result follows `query_online_names`: at most one entry per
   * configured name, their names a subsequence of it, and each context of
   * the result used at most once.
   */
  lemma OrderedFollowsNames(s: seq<Entry>, names: seq<string>)
    ensures |Ordered(s, names)| <= |names|
    ensures Subsequence(NamesOf(Ordered(s, names)), names)
    ensures multiset(Ordered(s, names)) <= multiset(s)
  {
    OrderedNames(s, names);
    OrderedSubmultiset(s, names);
  }

  lemma {:induction false} OrderedNames(s: seq<Entry>, names: seq<string>)
    ensures Subsequence(NamesOf(Ordered(s, names)), names)
    decreases |names|
  {
    if names != [] {
      match FirstNamed(s, names[0])
      case None =>
        OrderedNames(s, names[1..]);
      case Some(j) =>
        var rest := RemoveAt(s, j);
        OrderedNames(rest, names[1..]);
        var o := [s[j]] + Ordered(rest, names[1..]);
        assert NamesOf(o)[1..] == NamesOf(Ordered(rest, names[1..]));
    }
  }

  lemma {:induction false} OrderedSubmultiset(s: seq<Entry>, names: seq<string>)
    ensures multiset(Ordered(s, names)) <= multiset(s)
    decreases |names|
  {
    if names != [] {
      match FirstNamed(s, names[0])
      case None =>
        OrderedSubmultiset(s, names[1..]);
      case Some(j) =>
        OrderedSubmultiset(RemoveAt(s, j), names[1..]);
        RemoveAtMultiset(s, j);
    }
  }

  lemma RemoveAtMultiset(s: seq<Entry>, j: nat)
    requires j < |s|
    ensures multiset(s) == multiset(RemoveAt(s, j)) + multiset{s[j]}
  {
    assert s == s[..j] + [s[j]] + s[j + 1..];
  }

  /** With no names configured, only an empty result has every context configured. */
  lemma NothingConfigured(s: seq<Entry>, names: seq<string>)
    ensures names == [] && (forall i :: 0 <= i < |s| ==> s[i].0.name in names) ==> s == []
  {
    if s != [] && names == [] {
      assert s[0].0.name !in names;
    }
  }

  /**
   * When every context is configured and no two share a name, the ordered
   * result holds every entry: it is a reordering of the result.
   */
  lemma {:induction false} OrderedComplete(s: seq<Entry>, names: seq<string>)
    requires DistinctNames(s)
    requires forall i :: 0 <= i < |s| ==> s[i].0.name in names
    ensures multiset(Ordered(s, names)) == multiset(s)
    decreases |names|
  {
    if names == [] {
      NothingConfigured(s, names);
    } else {
      match FirstNamed(s, names[0])
      case None =>
        forall i | 0 <= i < |s|
          ensures s[i].0.name in names[1..]
        {
          assert s[i].0.name in names && s[i].0.name != names[0];
        }
        OrderedComplete(s, names[1..]);
      case Some(j) =>
        var rest := RemoveAt(s, j);
        forall a, b | 0 <= a < b < |rest|
          ensures rest[a].0.name != rest[b].0.name
        {
          var a' := if a < j then a else a + 1;
          var b' := if b < j then b else b + 1;
          assert rest[a] == s[a'] && rest[b] == s[b'];
        }
        forall i | 0 <= i < |rest|
          ensures rest[i].0.name in names[1..]
        {
          var i' := if i < j then i else i + 1;
          assert rest[i] == s[i'] && i' != j;
          assert s[i'].0.name != s[j].0.name;
          assert s[i'].0.name in names;
        }
        OrderedComplete(rest, names[1..]);
        RemoveAtMultiset(s, j);
    }
  }

  /** With distinct context names, `query(order=True)` lists every filtered entry, each once. */
  lemma QueryOrderedIsFiltered(result: seq<Entry>, names: seq<string>)
    requires DistinctNames(result)
    ensures multiset(Ordered(Filter(result, names), names)) == multiset(Filter(result, names))
  {
    FilterDistinct(result, names);
    OrderedComplete(Filter(result, names), names);
  }

  /** A configured vanilla server with nobody online ends up with no names: the `""` of its reply is blank. */
  lemma EmptyServerHasNoNames(k: ContextKey, n: string, m: string, ofForm: bool, names: seq<string>)
    requires n != "" && AllDigits(n) && m != "" && AllDigits(m)
    requires k.name in names
    ensures Filter([(k, HandleMinecraft(ListReply(n, m, ofForm, [])))], names) == [(k, {})]
  {
    ListReplyRoundTrip(n, m, ofForm, []);
    assert Strip("") == "";
    assert NonBlank({""}) == {};
    assert [(k, HandleMinecraft(ListReply(n, m, ofForm, [])))][1..] == [];
  }

  // ----- the RCON client cache -----

  /**
   * The state `Online` keeps: `_glist_rcon_catch`, one RCON client per
   * configured proxy name, in the order the names were first stored.
   */
  class Online {
    var cache: seq<(string, Rcon.RconClient)>

    /** Names are unique, and every cached client has a protocol of its own. */
    ghost predicate Valid()
      reads this
    {
      StrDict.UniqueNames(cache)
      && forall i, j :: 0 <= i < j < |cache| ==> cache[i].1.protocol != cache[j].1.protocol
    }

    constructor ()
      ensures cache == [] && Valid()
    {
      cache := [];
    }

    /**
     * `self._glist_rcon_catch.get(name, RconClient(...))` and the store
     * after it. The default client is built first, so settings whose port
     * is not a number raise even when a client is cached; otherwise the
     * cached client is reused, or a new unconnected one is cached last.
     */
    method CachedClient(name: string, host: Option<string>, port: Rcon.PortArg, password: Option<string>)
      returns (r: Result<Rcon.RconClient, PyError>)
      requires Valid()
      modifies this
      ensures Valid()
      ensures Rcon.ClientSettings(host, port, password).Err? ==>
        r == Err(Rcon.ClientSettings(host, port, password).error) && cache == old(cache)
      ensures Rcon.ClientSettings(host, port, password).Ok? && StrDict.HasName(old(cache), name) ==>
        r == Ok(StrDict.Get(old(cache), name).value) && cache == old(cache)
      ensures Rcon.ClientSettings(host, port, password).Ok? && !StrDict.HasName(old(cache), name) ==>
        r.Ok? && fresh(r.value) && fresh(r.value.protocol)
        && r.value.settings == Rcon.ClientSettings(host, port, password).value
        && r.value.protocol.state == Rcon.Connecting && !r.value.protocol.hasTransport
        && cache == old(cache) + [(name, r.value)]
    {
      var settings := Rcon.ClientSettings(host, port, password);
      if settings.Err? {
        return Err(settings.error);
      }
      var at := StrDict.Find(cache, name);
      if at.Some? {
        // storing the cached client again leaves the table as it is
        return Ok(cache[at.value].1);
      }
      var protocol := new Rcon.RconClientProtocol();
      var rcon := new Rcon.RconClient(settings.value, protocol);
      StrDict.AppendNewUnique(cache, name, rcon);
      cache := cache + [(name, rcon)];
      return Ok(rcon);
    }

    /**
     * One proxy's step of `query` up to the command: the client is stored
     * in the cache before `connect` runs, so a proxy that cannot be
     * reached stays cached with no transport. Only the client under
     * `name` is touched.
     */
    method QueryConnect(name: string, host: Option<string>, port: Rcon.PortArg, password: Option<string>, reachable: bool)
      returns (r: Result<Rcon.ConnectOutcome, PyError>)
      requires Valid()
      modifies this, set i | 0 <= i < |cache| && cache[i].0 == name :: cache[i].1.protocol
      ensures Valid()
      ensures Rcon.ClientSettings(host, port, password).Err? ==>
        r == Err(Rcon.ClientSettings(host, port, password).error) && cache == old(cache)
      ensures Rcon.ClientSettings(host, port, password).Ok? && !StrDict.HasName(old(cache), name) ==>
        |cache| == |old(cache)| + 1 && cache[..|old(cache)|] == old(cache) && cache[|old(cache)|].0 == name
        && fresh(cache[|old(cache)|].1)
        && (var c := cache[|old(cache)|].1;
            c.settings == Rcon.ClientSettings(host, port, password).value
            && (reachable ==> r == Ok(Rcon.LoginSent(Rcon.Build(0, Rcon.Code(Rcon.Login), c.settings.password)))
                              && c.protocol.hasTransport && c.protocol.state == Rcon.Connected)
            && (!reachable ==> r == Err(OtherError("OSError")) && !c.protocol.hasTransport))
      ensures Rcon.ClientSettings(host, port, password).Ok? && StrDict.HasName(old(cache), name) ==>
        cache == old(cache)
        && (var c := StrDict.Get(cache, name).value;
            (old(c.protocol.IsConnected()) ==> r == Ok(Rcon.AlreadyConnected) && c.protocol.state == old(c.protocol.state))
            && (!old(c.protocol.IsConnected()) && reachable ==>
                  r == Ok(Rcon.LoginSent(Rcon.Build(0, Rcon.Code(Rcon.Login), c.settings.password)))
                  && c.protocol.hasTransport && c.protocol.state == Rcon.Connected)
            && (!old(c.protocol.IsConnected()) && !reachable ==>
                  r == Err(OtherError("OSError")) && c.protocol.state == old(c.protocol.state)
                  && c.protocol.hasTransport == old(c.protocol.hasTransport)))
    {
      var at := StrDict.Find(cache, name);
      var client := CachedClient(name, host, port, password);
      if client.Err? {
        return Err(client.error);
      }
      var c := client.value;
      var j := if at.Some? then at.value else |cache| - 1;
      assert c == cache[j].1;
      if at.Some? {
        assert StrDict.Get(cache, name) == Some(c);
      }
      r := c.Connect(false, reachable);
    }

    /** The position of the first cached client, from `i` on, whose protocol never had a connection made. */
    ghost function FirstUnconnected(i: nat): (k: nat)
      requires i <= |cache|
      reads this, set j | 0 <= j < |cache| :: cache[j].1.protocol
      ensures i <= k <= |cache|
      ensures forall j :: i <= j < k ==> cache[j].1.protocol.hasTransport
      ensures k < |cache| ==> !cache[k].1.protocol.hasTransport
      decreases |cache| - i
    {
      if i == |cache| || !cache[i].1.protocol.hasTransport then i else FirstUnconnected(i + 1)
    }

    /**
     * `on_unload`: the cached clients are disconnected in order, and the
     * first one whose protocol never had a connection made raises
     * `AttributeError`, which leaves it and every later one as it was.
     */
    method OnUnload() returns (r: Result<(), PyError>)
      requires Valid()
      modifies set i | 0 <= i < |cache| :: cache[i].1.protocol
      ensures var k := old(FirstUnconnected(0));
        (r.Ok? <==> k == |cache|) && (r.Err? ==> r.error == AttributeError)
        && (forall i :: 0 <= i < k ==> cache[i].1.protocol.state == Rcon.Closed)
        && (forall i :: k <= i < |cache| ==> cache[i].1.protocol.state == old(cache[i].1.protocol.state))
      ensures forall i :: 0 <= i < |cache| ==> cache[i].1.protocol.hasTransport == old(cache[i].1.protocol.hasTransport)
    {
      ghost var k := FirstUnconnected(0);
      var i := 0;
      while i < |cache|
        invariant 0 <= i <= k
        invariant forall j :: 0 <= j < |cache| ==> cache[j].1.protocol.hasTransport == old(cache[j].1.protocol.hasTransport)
        invariant forall j :: 0 <= j < i ==> cache[j].1.protocol.state == Rcon.Closed
        invariant forall j :: i <= j < |cache| ==> cache[j].1.protocol.state == old(cache[j].1.protocol.state)
      {
        r := cache[i].1.Disconnect();
        if r.Err? {
          assert i == k;
          return;
        }
        i := i + 1;
      }
      return Ok(());
    }
  }
}
