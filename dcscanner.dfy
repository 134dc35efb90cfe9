/**
 * The hand-written Discord-markdown scanner of `test.py`: it walks the text
 * once, turning `**`, `__` and `~~` into `§l`, `§n` and `§m`, a lone `*` or
 * `_` into `§o`, and copying the character after a backslash verbatim.
 */
module DiscordScanner {

  /** What the scanner produces for the rest of the text, read from the front. */
  function Scanned(s: string): string
    decreases |s|
  {
    if s == [] then ""
    else if s[0] == '\\' then (if |s| >= 2 then [s[1]] + Scanned(s[2..]) else "")
    else if |s| >= 2 && s[0] == '*' && s[1] == '*' then "§l" + Scanned(s[2..])
    else if |s| >= 2 && s[0] == '_' && s[1] == '_' then "§n" + Scanned(s[2..])
    else if |s| >= 2 && s[0] == '~' && s[1] == '~' then "§m" + Scanned(s[2..])
    else if s[0] == '_' || s[0] == '*' then "§o" + Scanned(s[1..])
    else [s[0]] + Scanned(s[1..])
  }

  /** The scan emits at most two characters per character read. */
  lemma {:induction false} ScannedLength(s: string)
    ensures |Scanned(s)| <= 2 * |s|
    decreases |s|
  {
    if s == [] {
    } else if s[0] == '\\' {
      if |s| >= 2 { ScannedLength(s[2..]); }
    } else if |s| >= 2 && ((s[0] == '*' && s[1] == '*') || (s[0] == '_' && s[1] == '_') || (s[0] == '~' && s[1] == '~')) {
      ScannedLength(s[2..]);
    } else {
      ScannedLength(s[1..]);
    }
  }

  /** `dcToMcFormatting(s)`: the `while index <= maxLen` loop of the scanner. */
  method DcToMcFormatting(s: string) returns (result: string)
    ensures result == Scanned(s)
  {
    var maxLen := |s| - 1;
    result := "";
    var index := 0;
    while index <= maxLen
      invariant 0 <= index <= |s| + 1
      invariant index <= |s| ==> result + Scanned(s[index..]) == Scanned(s)
      invariant index == |s| + 1 ==> result == Scanned(s)
      decreases |s| + 1 - index
    {
      var next, piece := ScanOne(s, index);
      if next <= |s| {
        assert result + piece + Scanned(s[next..]) == result + (piece + Scanned(s[next..]));
      } else {
        assert result + piece + "" == result + piece;
      }
      result := result + piece;
      index := next;
    }
  }

  /** One pass of the loop body at `index`: the text it appends and the index it moves to. */
  method ScanOne(s: string, index: nat) returns (next: nat, piece: string)
    requires index < |s|
    ensures index < next <= |s| + 1
    ensures next <= |s| ==> Scanned(s[index..]) == piece + Scanned(s[next..])
    ensures next == |s| + 1 ==> Scanned(s[index..]) == piece
  {
    ScannedAt(s, index);
    var maxLen := |s| - 1;
    var no := s[index];
    var ne: string := if maxLen > index then [s[index + 1]] else "";
    next := index + 1;
    if no == '\\' {
      next := next + 1;
      piece := ne;
      return;
    }
    if no == '*' && ne == "*" {
      next := next + 1;
      piece := "§l";
      return;
    }
    if no == '_' && ne == "_" {
      next := next + 1;
      piece := "§n";
      return;
    }
    if no == '~' && ne == "~" {
      next := next + 1;
      piece := "§m";
      return;
    }
    if no == '_' || no == '*' {
      piece := "§o";
      return;
    }
    piece := [no];
  }

  /** One step of the scan at position `k`, in terms of the positions after it. */
  lemma ScannedAt(s: string, k: nat)
    requires k < |s|
    ensures s[k] == '\\' && k + 1 < |s| ==> Scanned(s[k..]) == [s[k + 1]] + Scanned(s[k + 2..])
    ensures s[k] == '\\' && k + 1 == |s| ==> Scanned(s[k..]) == ""
    ensures s[k] != '\\' && k + 1 < |s| && s[k] in {'*', '_', '~'} && s[k + 1] == s[k] ==>
      Scanned(s[k..]) == (if s[k] == '*' then "§l" else if s[k] == '_' then "§n" else "§m") + Scanned(s[k + 2..])
    ensures s[k] != '\\' && !(k + 1 < |s| && s[k] in {'*', '_', '~'} && s[k + 1] == s[k]) ==>
      Scanned(s[k..]) == (if s[k] in {'_', '*'} then "§o" else [s[k]]) + Scanned(s[k + 1..])
  {
    var r := s[k..];
    assert r[1..] == s[k + 1..];
    if k + 1 < |s| {
      assert r[2..] == s[k + 2..];
    }
  }

  /** Text without any of `\ * _ ~` comes back unchanged. */
  lemma {:induction false} PlainTextUnchanged(s: string)
    requires forall i :: 0 <= i < |s| ==> s[i] !in {'\\', '*', '_', '~'}
    ensures Scanned(s) == s
    decreases |s|
  {
    if s != [] {
      assert forall i :: 0 <= i < |s[1..]| ==> s[1..][i] == s[i + 1];
      PlainTextUnchanged(s[1..]);
      assert [s[0]] + s[1..] == s;
    }
  }

  /** A backslash before every character escapes the whole text: the scanner gives it back. */
  function EscapeAll(s: string): (r: string)
    ensures |r| == 2 * |s|
  {
    if s == [] then "" else ['\\', s[0]] + EscapeAll(s[1..])
  }

  lemma {:induction false} EscapedRoundTrip(s: string)
    ensures Scanned(EscapeAll(s)) == s
    decreases |s|
  {
    if s != [] {
      var e := EscapeAll(s);
      assert e[2..] == EscapeAll(s[1..]);
      EscapedRoundTrip(s[1..]);
      assert [s[0]] + s[1..] == s;
    }
  }

  /** A trailing backslash emits nothing, and a lone `~` is copied. */
  lemma TrailingBackslashAndTilde(t: string)
    ensures Scanned("\\") == ""
    ensures |t| >= 1 && t[0] != '~' ==> Scanned("~" + t) == "~" + Scanned(t)
  {
    if |t| >= 1 && t[0] != '~' {
      assert ("~" + t)[1..] == t;
    }
  }

  /** Pairs are tried before singles, so `***` is bold then italic. */
  lemma TripleAsterisk(t: string)
    ensures Scanned("***" + t) == "§l" + Scanned("*" + t)
  {
    assert ("***" + t)[2..] == "*" + t;
  }

  /**
   * The scanner never writes a reset: with no `§` in the input, every `§` of
   * the output is followed by one of `l n m o`.
   */
  predicate OnlyStyleCodes(r: string)
  {
    forall i :: 0 <= i < |r| && r[i] == '§' ==> i + 1 < |r| && r[i + 1] in {'l', 'n', 'm', 'o'}
  }

  lemma {:induction false} NeverInsertsReset(s: string)
    requires forall i :: 0 <= i < |s| ==> s[i] != '§'
    ensures OnlyStyleCodes(Scanned(s))
    decreases |s|
  {
    if s != [] {
      if s[0] == '\\' && |s| >= 2 {
        assert forall i :: 0 <= i < |s[2..]| ==> s[2..][i] == s[i + 2];
        NeverInsertsReset(s[2..]);
        PrependKeeps([s[1]], Scanned(s[2..]));
      } else if s[0] == '\\' {
      } else if |s| >= 2 && s[0] in {'*', '_', '~'} && s[1] == s[0] {
        assert forall i :: 0 <= i < |s[2..]| ==> s[2..][i] == s[i + 2];
        NeverInsertsReset(s[2..]);
        var code := if s[0] == '*' then "§l" else if s[0] == '_' then "§n" else "§m";
        PrependKeeps(code, Scanned(s[2..]));
      } else {
        assert forall i :: 0 <= i < |s[1..]| ==> s[1..][i] == s[i + 1];
        NeverInsertsReset(s[1..]);
        var head := if s[0] == '_' || s[0] == '*' then "§o" else [s[0]];
        PrependKeeps(head, Scanned(s[1..]));
      }
    }
  }

  /** A style code or a character other than `§`, put in front, keeps the property. */
  lemma PrependKeeps(head: string, r: string)
    requires OnlyStyleCodes(r)
    requires (|head| == 1 && head[0] != '§') || (|head| == 2 && head[0] == '§' && head[1] in {'l', 'n', 'm', 'o'})
    ensures OnlyStyleCodes(head + r)
  {
    var t := head + r;
    forall i | 0 <= i < |t| && t[i] == '§'
      ensures i + 1 < |t| && t[i + 1] in {'l', 'n', 'm', 'o'}
    {
      if i >= |head| {
        assert t[i] == r[i - |head|];
        assert i + 1 - |head| < |r|;
        assert t[i + 1] == r[i + 1 - |head|];
      }
    }
  }
}
