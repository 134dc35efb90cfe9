/**
 * The regular-expression Discord-markdown converter of
 * `chatbridgee/utils/format.py`: five substitutions applied in a fixed
 * order, each turning a delimited span into a `§` code, the span's text and
 * a reset `§r`, followed by collapsing every run of resets into one.
 *
 * Each pattern has the shape `(?<!\\)D([\s\S]+?)D(?!c)` for a delimiter `D`
 * made of one or two copies of the character `c`; `re.sub` scans from the
 * left, tries the lazy span from its shortest length upward, and resumes
 * after each match.
 */
module MarkdownConvert {
  import opened Wrappers

  /** A delimiter of one or two copies of `c`, and the code its spans get. */
  datatype Pattern = Pattern(c: char, double: bool, code: string)

  function Len(pat: Pattern): nat { if pat.double then 2 else 1 }

  /** The table in its iteration order, with the codes exactly as the table holds them. */
  function Patterns(): seq<Pattern>
  {
    [Pattern('~', true, "§m"), Pattern('_', true, "§o"), Pattern('*', true, "§o"),
     Pattern('_', false, "§n"), Pattern('*', false, "§l")]
  }

  const Reset: string := "§r"

  /** The delimiter occurs at `q`. */
  predicate DelimAt(s: string, pat: Pattern, q: int)
  {
    0 <= q && q + Len(pat) <= |s| && s[q] == pat.c && (pat.double ==> s[q + 1] == pat.c)
  }

  /** An opening: the delimiter, not preceded by a backslash. */
  predicate OpensAt(s: string, pat: Pattern, q: int)
  {
    DelimAt(s, pat, q) && (q == 0 || s[q - 1] != '\\')
  }

  /** A closing: the delimiter, not followed by another `c`. */
  predicate ClosesAt(s: string, pat: Pattern, q: int)
  {
    DelimAt(s, pat, q) && (q + Len(pat) == |s| || s[q + Len(pat)] != pat.c)
  }

  /** The nearest closing at or after `q`. */
  function CloseFrom(s: string, pat: Pattern, q: nat): (r: Option<nat>)
    ensures r.Some? ==> q <= r.value && ClosesAt(s, pat, r.value)
    ensures r.Some? ==> forall m :: q <= m < r.value ==> !ClosesAt(s, pat, m)
    ensures r.None? ==> forall m :: q <= m ==> !ClosesAt(s, pat, m)
    decreases |s| - q
  {
    if q + Len(pat) > |s| then None
    else if ClosesAt(s, pat, q) then Some(q)
    else CloseFrom(s, pat, q + 1)
  }

  /** A match at `p`: an opening and a closing after a non-empty span. */
  function MatchAt(s: string, pat: Pattern, p: nat): Option<nat>
  {
    if OpensAt(s, pat, p) then CloseFrom(s, pat, p + Len(pat) + 1) else None
  }

  /** `pattern.sub(code + span + "§r", s)`, from position `p` on. */
  function SubFrom(s: string, pat: Pattern, p: nat): string
    decreases |s| - p
  {
    if p >= |s| then ""
    else
      var m := MatchAt(s, pat, p);
      if m.Some? then pat.code + s[p + Len(pat)..m.value] + Reset + SubFrom(s, pat, m.value + Len(pat))
      else [s[p]] + SubFrom(s, pat, p + 1)
  }

  function Sub(s: string, pat: Pattern): string { SubFrom(s, pat, 0) }

  /** The passes of `pats`, in order. */
  function ApplyAll(s: string, pats: seq<Pattern>): string
  {
    if pats == [] then s else Sub(ApplyAll(s, pats[..|pats| - 1]), pats[|pats| - 1])
  }

  // ----- collapsing resets -----

  predicate ResetAt(s: string, i: int)
  {
    0 <= i && i + 2 <= |s| && s[i] == '§' && s[i + 1] == 'r'
  }

  /** The run of resets at the front removed. */
  function DropResets(s: string): (r: string)
    ensures |r| <= |s| && !ResetAt(r, 0)
    decreases |s|
  {
    if ResetAt(s, 0) then DropResets(s[2..]) else s
  }

  /** `ResetRe.sub("§r", s)`: each maximal run of resets becomes one. */
  function Collapse(s: string): (r: string)
    ensures |r| <= |s|
    decreases |s|
  {
    if s == [] then ""
    else if ResetAt(s, 0) then Reset + Collapse(DropResets(s[2..]))
    else [s[0]] + Collapse(s[1..])
  }

  /** `dcToMcFormatting(s)` */
  function Converted(s: string): string
  {
    Collapse(ApplyAll(s, Patterns()))
  }

  /** The loop over the table that rebinds `s`, then the collapse. */
  method DcToMcFormatting(s: string) returns (r: string)
    ensures r == Converted(s)
  {
    var pats := Patterns();
    var cur := s;
    for i := 0 to |pats|
      invariant cur == ApplyAll(s, pats[..i])
    {
      assert pats[..i + 1][..i] == pats[..i];
      cur := Sub(cur, pats[i]);
    }
    assert pats[..|pats|] == pats;
    r := Collapse(cur);
  }

  // ----- the substitutions -----

  /** Where no delimiter occurs, a substitution copies the text. */
  lemma {:induction false} SubNoDelim(s: string, pat: Pattern, p: nat)
    requires forall q :: p <= q ==> !DelimAt(s, pat, q)
    ensures SubFrom(s, pat, p) == (if p <= |s| then s[p..] else "")
    decreases |s| - p
  {
    if p < |s| {
      SubNoDelim(s, pat, p + 1);
      assert [s[p]] + s[p + 1..] == s[p..];
    }
  }

  /** Text without the delimiter's character is untouched by its pass. */
  lemma NoCharUnchanged(s: string, pat: Pattern)
    requires forall i :: 0 <= i < |s| ==> s[i] != pat.c
    ensures Sub(s, pat) == s
  {
    SubNoDelim(s, pat, 0);
  }

  /** An opening right after a backslash is not matched: its character is copied. */
  lemma EscapedOpeningCopied(s: string, pat: Pattern, p: nat)
    requires 0 < p < |s| && s[p - 1] == '\\'
    ensures SubFrom(s, pat, p) == [s[p]] + SubFrom(s, pat, p + 1)
  {
  }

  /** A span with no `c` between two delimiters becomes the code, the span and a reset. */
  lemma SpanReplaced(x: string, pat: Pattern)
    requires x != [] && forall i :: 0 <= i < |x| ==> x[i] != pat.c
    ensures Sub(Delim(pat) + x + Delim(pat), pat) == pat.code + x + Reset
  {
    var d := Delim(pat);
    var s := d + x + d;
    var j := |d| + |x|;
    assert ClosesAt(s, pat, j);
    forall m | |d| + 1 <= m < j
      ensures !ClosesAt(s, pat, m)
    {
      assert s[m] == x[m - |d|];
    }
    assert OpensAt(s, pat, 0);
    assert CloseFrom(s, pat, |d| + 1) == Some(j) by {
      CloseFromFirst(s, pat, |d| + 1, j);
    }
    assert s[|d|..j] == x;
    assert SubFrom(s, pat, |s|) == "";
  }

  function Delim(pat: Pattern): (d: string)
    ensures |d| == Len(pat)
  {
    if pat.double then [pat.c, pat.c] else [pat.c]
  }

  lemma {:induction false} CloseFromFirst(s: string, pat: Pattern, q: nat, j: nat)
    requires q <= j && ClosesAt(s, pat, j) && forall m :: q <= m < j ==> !ClosesAt(s, pat, m)
    ensures CloseFrom(s, pat, q) == Some(j)
    decreases j - q
  {
    if q < j {
      CloseFromFirst(s, pat, q + 1, j);
    }
  }

  /** A backslash before a delimited span keeps the whole text as it is. */
  lemma EscapedSpanKept(x: string, pat: Pattern)
    requires pat.c != '\\'
    requires x != [] && forall i :: 0 <= i < |x| ==> x[i] != pat.c
    ensures Sub("\\" + Delim(pat) + x + Delim(pat), pat) == "\\" + Delim(pat) + x + Delim(pat)
  {
    var d := Delim(pat);
    var s := "\\" + d + x + d;
    forall q | 0 <= q
      ensures MatchAt(s, pat, q).None?
    {
      if OpensAt(s, pat, q) {
        if q < 1 + |d| + |x| {
          assert false;
        } else {
          assert q + Len(pat) + 1 > |s| - Len(pat);
        }
      }
    }
    SubNoMatch(s, pat, 0);
  }

  /** Where no match starts, a substitution copies the text. */
  lemma {:induction false} SubNoMatch(s: string, pat: Pattern, p: nat)
    requires forall q :: p <= q ==> MatchAt(s, pat, q).None?
    ensures SubFrom(s, pat, p) == (if p <= |s| then s[p..] else "")
    decreases |s| - p
  {
    if p < |s| {
      SubNoMatch(s, pat, p + 1);
      assert [s[p]] + s[p + 1..] == s[p..];
    }
  }

  // ----- the collapse -----

  /** No two resets are adjacent. */
  predicate NoDoubleReset(s: string)
  {
    forall i :: 0 <= i < |s| && ResetAt(s, i) ==> !ResetAt(s, i + 2)
  }

  lemma {:induction false} CollapseHead(s: string)
    requires s != []
    ensures Collapse(s) != [] && Collapse(s)[0] == s[0]
    ensures ResetAt(Collapse(s), 0) <==> ResetAt(s, 0)
  {
    if !ResetAt(s, 0) && s[0] == '§' && |s| >= 2 {
      CollapseHead(s[1..]);
    }
  }

  /** After the collapse no two resets are adjacent. */
  lemma {:induction false} CollapseNoDouble(s: string)
    ensures NoDoubleReset(Collapse(s))
    decreases |s|
  {
    if s != [] {
      var r := Collapse(s);
      if ResetAt(s, 0) {
        var t := DropResets(s[2..]);
        var c := Collapse(t);
        CollapseNoDouble(t);
        if t != [] {
          CollapseHead(t);
        }
        assert r == Reset + c;
        forall i | 0 <= i < |r| && ResetAt(r, i)
          ensures !ResetAt(r, i + 2)
        {
          if i >= 2 {
            ShiftReset(Reset, c, i);
            assert ResetAt(c, i - 2);
            ShiftReset(Reset, c, i + 2);
          } else {
            assert i == 0;
            ShiftReset(Reset, c, 2);
          }
        }
      } else {
        var c := Collapse(s[1..]);
        CollapseNoDouble(s[1..]);
        if s[1..] != [] {
          CollapseHead(s[1..]);
        }
        assert r == [s[0]] + c;
        forall i | 0 <= i < |r| && ResetAt(r, i)
          ensures !ResetAt(r, i + 2)
        {
          if i >= 1 {
            ShiftReset([s[0]], c, i);
            assert ResetAt(c, i - 1);
            ShiftReset([s[0]], c, i + 2);
          } else {
            assert false;
          }
        }
      }
    }
  }

  /** A reset past a prefix is a reset of the rest. */
  lemma ShiftReset(h: string, c: string, i: int)
    requires i >= |h|
    ensures ResetAt(h + c, i) <==> ResetAt(c, i - |h|)
  {
    if ResetAt(h + c, i) {
      assert (h + c)[i] == c[i - |h|] && (h + c)[i + 1] == c[i + 1 - |h|];
    }
    if ResetAt(c, i - |h|) {
      assert (h + c)[i] == c[i - |h|] && (h + c)[i + 1] == c[i + 1 - |h|];
    }
  }

  /** Text without adjacent resets is left as it is. */
  lemma {:induction false} CollapseFixes(s: string)
    requires NoDoubleReset(s)
    ensures Collapse(s) == s
    decreases |s|
  {
    if s != [] {
      if ResetAt(s, 0) {
        var t := s[2..];
        assert !ResetAt(s, 2);
        assert !ResetAt(t, 0) by {
          if |t| >= 2 {
            assert t[0] == s[2] && t[1] == s[3];
          }
        }
        SuffixNoDouble(s, 2);
        CollapseFixes(t);
        assert Reset + t == s;
      } else {
        SuffixNoDouble(s, 1);
        CollapseFixes(s[1..]);
        assert [s[0]] + s[1..] == s;
      }
    }
  }

  lemma SuffixNoDouble(s: string, k: nat)
    requires k <= |s| && NoDoubleReset(s)
    ensures NoDoubleReset(s[k..])
  {
    var t := s[k..];
    forall i | 0 <= i < |t| && ResetAt(t, i)
      ensures !ResetAt(t, i + 2)
    {
      assert ResetAt(s, i + k);
      assert !ResetAt(s, i + k + 2);
      if i + 4 <= |t| {
        assert t[i + 2] == s[i + k + 2] && t[i + 3] == s[i + k + 3];
      }
    }
  }

  /** The collapse is idempotent. */
  lemma CollapseIdempotent(s: string)
    ensures Collapse(Collapse(s)) == Collapse(s)
  {
    CollapseNoDouble(s);
    CollapseFixes(Collapse(s));
  }

  // ----- the whole conversion -----

  /** Text without `~`, `_` or `*` only has its reset runs collapsed. */
  lemma PlainTextOnlyCollapsed(s: string)
    requires forall i :: 0 <= i < |s| ==> s[i] !in {'~', '_', '*'}
    ensures Converted(s) == Collapse(s)
  {
    PatternChars();
    ApplyPrefixPlain(s, Patterns(), |Patterns()|);
    assert Patterns()[..|Patterns()|] == Patterns();
  }

  lemma PatternChars()
    ensures forall j :: 0 <= j < |Patterns()| ==> Patterns()[j].c in {'~', '_', '*'}
  {
  }

  lemma {:induction false} ApplyPrefixPlain(s: string, pats: seq<Pattern>, k: nat)
    requires k <= |pats| && forall j :: 0 <= j < |pats| ==> pats[j].c in {'~', '_', '*'}
    requires forall i :: 0 <= i < |s| ==> s[i] !in {'~', '_', '*'}
    ensures ApplyAll(s, pats[..k]) == s
    decreases k
  {
    if k > 0 {
      assert pats[..k][..k - 1] == pats[..k - 1];
      ApplyPrefixPlain(s, pats, k - 1);
      NoCharUnchanged(s, pats[k - 1]);
    }
  }

  /** Passes that leave `t` as it is keep it through the range of the table they cover. */
  lemma {:induction false} ApplyRange(s: string, pats: seq<Pattern>, lo: nat, hi: nat, t: string)
    requires lo <= hi <= |pats| && ApplyAll(s, pats[..lo]) == t
    requires forall k :: lo <= k < hi ==> Sub(t, pats[k]) == t
    ensures ApplyAll(s, pats[..hi]) == t
    decreases hi
  {
    if hi > lo {
      ApplyRange(s, pats, lo, hi - 1, t);
      assert pats[..hi][..hi - 1] == pats[..hi - 1];
    }
  }

  /** A pattern earlier in the table than another has a different character, or is the double of it. */
  lemma PatternOrder()
    ensures forall k, i :: 0 <= k < i < |Patterns()| ==>
      Patterns()[k].c != Patterns()[i].c || (Patterns()[k].double && !Patterns()[i].double)
  {
  }

  /** A span is no material for a pattern with a different character, or for the double of its own. */
  lemma NoDelimInSpan(x: string, pi: Pattern, pk: Pattern, q: int)
    requires x != [] && forall j :: 0 <= j < |x| ==> x[j] !in {'~', '_', '*', '§'}
    requires pi.c in {'~', '_', '*'} && pk.c in {'~', '_', '*'}
    requires pk.c != pi.c || (pk.double && !pi.double)
    ensures !DelimAt(Delim(pi) + x + Delim(pi), pk, q)
  {
    var s := Delim(pi) + x + Delim(pi);
    assert forall j :: |Delim(pi)| <= j < |Delim(pi)| + |x| ==> s[j] == x[j - |Delim(pi)|];
    assert forall j :: 0 <= j < |Delim(pi)| ==> s[j] == pi.c;
    assert forall j :: |Delim(pi)| + |x| <= j < |s| ==> s[j] == pi.c;
  }

  /**
   * A span of plain text between any table delimiter comes out as that
   * pattern's code, the text and one reset: the earlier passes do not touch
   * it, and the later ones find nothing in the result.
   */
  lemma SpanConverted(x: string, i: nat)
    requires i < |Patterns()|
    requires x != [] && forall j :: 0 <= j < |x| ==> x[j] !in {'~', '_', '*', '§'}
    ensures Converted(Delim(Patterns()[i]) + x + Delim(Patterns()[i])) == Patterns()[i].code + x + Reset
  {
    var pats := Patterns();
    var pat := pats[i];
    var s := Delim(pat) + x + Delim(pat);
    var r := pat.code + x + Reset;
    EarlierPassesKeep(x, i);
    assert pats[..0] == [];
    ApplyRange(s, pats, 0, i, s);
    SpanReplaced(x, pat);
    OwnPass(s, pats, i, r);
    LaterPassesKeep(x, i);
    ApplyRange(s, pats, i + 1, |pats|, r);
    assert pats[..|pats|] == pats;
    PatternCode(i);
    SpanResultFixed(x, pat.code);
  }

  /** The pass of pattern `i` after passes that left the text alone. */
  lemma OwnPass(s: string, pats: seq<Pattern>, i: nat, r: string)
    requires i < |pats| && ApplyAll(s, pats[..i]) == s && Sub(s, pats[i]) == r
    ensures ApplyAll(s, pats[..i + 1]) == r
  {
    assert pats[..i + 1][..i] == pats[..i];
  }

  /** Every code of the table is a `§` and one of the style letters. */
  lemma PatternCode(i: nat)
    requires i < |Patterns()|
    ensures |Patterns()[i].code| == 2 && Patterns()[i].code[0] == '§' && Patterns()[i].code[1] in {'m', 'o', 'n', 'l'}
  {
  }

  lemma EarlierPassesKeep(x: string, i: nat)
    requires i < |Patterns()|
    requires x != [] && forall j :: 0 <= j < |x| ==> x[j] !in {'~', '_', '*', '§'}
    ensures forall k :: 0 <= k < i ==>
      Sub(Delim(Patterns()[i]) + x + Delim(Patterns()[i]), Patterns()[k]) == Delim(Patterns()[i]) + x + Delim(Patterns()[i])
  {
    var pats := Patterns();
    var pat := pats[i];
    var s := Delim(pat) + x + Delim(pat);
    PatternChars();
    PatternOrder();
    forall k | 0 <= k < i
      ensures Sub(s, pats[k]) == s
    {
      forall q | 0 <= q
        ensures !DelimAt(s, pats[k], q)
      {
        NoDelimInSpan(x, pat, pats[k], q);
      }
      SubNoDelim(s, pats[k], 0);
    }
  }

  lemma LaterPassesKeep(x: string, i: nat)
    requires i < |Patterns()|
    requires forall j :: 0 <= j < |x| ==> x[j] !in {'~', '_', '*', '§'}
    ensures forall k :: i < k < |Patterns()| ==>
      Sub(Patterns()[i].code + x + Reset, Patterns()[k]) == Patterns()[i].code + x + Reset
  {
    var pats := Patterns();
    PatternChars();
    var r := pats[i].code + x + Reset;
    assert |pats[i].code| == 2 && pats[i].code[0] == '§' && pats[i].code[1] in {'m', 'o', 'n', 'l'};
    forall k | i < k < |pats|
      ensures Sub(r, pats[k]) == r
    {
      forall j | 0 <= j < |r|
        ensures r[j] != pats[k].c
      {
        if 2 <= j < 2 + |x| {
          assert r[j] == x[j - 2];
        }
      }
      NoCharUnchanged(r, pats[k]);
    }
  }

  /** The converted span has its only reset at the end, so the collapse keeps it. */
  lemma SpanResultFixed(x: string, code: string)
    requires |code| == 2 && code[0] == '§' && code[1] in {'m', 'o', 'n', 'l'}
    requires forall j :: 0 <= j < |x| ==> x[j] != '§'
    ensures Collapse(code + x + Reset) == code + x + Reset
  {
    var r := code + x + Reset;
    assert forall j :: 2 <= j < 2 + |x| ==> r[j] == x[j - 2];
    assert r[0] == '§' && r[1] == code[1];
    forall j | 0 <= j < |r| && ResetAt(r, j)
      ensures j >= 2 + |x|
    {
    }
    CollapseFixes(r);
  }
}
