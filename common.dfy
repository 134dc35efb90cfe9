/** Failure-carrying wrappers shared by every module of the model. */
module Wrappers {

  datatype Option<+T> = None | Some(value: T)

  /** Python exceptions are modelled by the error side of a Result. */
  datatype Result<+T, +E> = Ok(value: T) | Err(error: E)
}

/**
 * The parts of Python's `str` that the relay's code relies on: prefix tests,
 * `split(sep)`, `' '.join`, `replace`, the argument-less `split()`, `strip()`,
 * `splitlines()` and `int(str)`. Strings are sequences of Unicode scalar values.
 */
module PyStr {
  import opened Wrappers

  /** `str.isspace()` for one character: the characters Python's `split()` and `strip()` cut at. */
  predicate IsSpace(c: char)
  {
    var n := c as int;
    (0x09 <= n <= 0x0d) || (0x1c <= n <= 0x20) || n == 0x85 || n == 0xa0 || n == 0x1680
    || (0x2000 <= n <= 0x200a) || n == 0x2028 || n == 0x2029 || n == 0x202f || n == 0x205f
    || n == 0x3000
  }

  /** `s.startswith(p)` */
  predicate StartsWith(s: string, p: string)
  {
    |p| <= |s| && s[..|p|] == p
  }

  /** `t in s` for strings: `t` occurs as a contiguous piece of `s`. */
  predicate ContainsSub(s: string, t: string)
  {
    exists i :: 0 <= i <= |s| - |t| && OccursAt(s, t, i)
  }

  predicate OccursAt(s: string, t: string, i: int)
  {
    0 <= i <= |s| - |t| && s[i..i + |t|] == t
  }

  /** `s.split(sep)` for a one-character separator: always at least one piece. */
  function Split(s: string, sep: char): (r: seq<string>)
    ensures |r| >= 1
    decreases |s|
  {
    if s == [] then [""]
    else if s[0] == sep then [""] + Split(s[1..], sep)
    else
      var rest := Split(s[1..], sep);
      [[s[0]] + rest[0]] + rest[1..]
  }

  /** `sep.join(parts)` */
  function Join(sep: string, parts: seq<string>): string
    decreases |parts|
  {
    if |parts| == 0 then ""
    else if |parts| == 1 then parts[0]
    else parts[0] + sep + Join(sep, parts[1..])
  }

  /** `s.replace(c, r)` for a one-character `c`. */
  function ReplaceChar(s: string, c: char, r: string): (t: string)
    ensures c !in s ==> t == s
  {
    if s == [] then [] else (if s[0] == c then r else [s[0]]) + ReplaceChar(s[1..], c, r)
  }

  /** `s.replace(old, new)` for a non-empty `old`: leftmost occurrences, without overlap. */
  function ReplaceAll(s: string, pat: string, rep: string): string
    requires |pat| > 0
    decreases |s|
  {
    if |s| < |pat| then s
    else if s[..|pat|] == pat then rep + ReplaceAll(s[|pat|..], pat, rep)
    else [s[0]] + ReplaceAll(s[1..], pat, rep)
  }

  /** Removes leading whitespace. */
  function LStrip(s: string): (r: string)
    ensures |r| <= |s| && r == s[|s| - |r|..]
    ensures r == [] || !IsSpace(r[0])
  {
    if s != [] && IsSpace(s[0]) then LStrip(s[1..]) else s
  }

  /** Removes trailing whitespace. */
  function RStrip(s: string): (r: string)
    ensures |r| <= |s| && r == s[..|r|]
    ensures r == [] || !IsSpace(r[|r| - 1])
  {
    if s != [] && IsSpace(s[|s| - 1]) then RStrip(s[..|s| - 1]) else s
  }

  /** `s.strip()` */
  function Strip(s: string): (r: string)
    ensures |r| <= |s| && forall c :: c in r ==> c in s
    ensures r == [] || (!IsSpace(r[0]) && !IsSpace(r[|r| - 1]))
  {
    var l := LStrip(s);
    var r := RStrip(l);
    assert r == s[|s| - |l|..][..|r|];
    assert forall c :: c in r ==> c in s[|s| - |l|..];
    r
  }

  /** Length of the leading run of non-whitespace characters. */
  function TokenLength(s: string): (k: nat)
    ensures k <= |s|
    ensures forall i :: 0 <= i < k ==> !IsSpace(s[i])
    ensures k == |s| || IsSpace(s[k])
  {
    if s == [] || IsSpace(s[0]) then 0 else 1 + TokenLength(s[1..])
  }

  /** `s.split()`: the maximal runs of non-whitespace characters, in order. */
  function SplitWs(s: string): seq<string>
    decreases |s|
  {
    var t := LStrip(s);
    if t == [] then []
    else
      var k := TokenLength(t);
      [t[..k]] + SplitWs(t[k..])
  }

  /** The line boundaries `str.splitlines()` cuts at (`\r\n` counts as one). */
  predicate IsLineBreak(c: char)
  {
    var n := c as int;
    (0x0a <= n <= 0x0d) || (0x1c <= n <= 0x1e) || n == 0x85 || n == 0x2028 || n == 0x2029
  }

  function LineLength(s: string): (k: nat)
    ensures k <= |s|
    ensures forall i :: 0 <= i < k ==> !IsLineBreak(s[i])
    ensures k == |s| || IsLineBreak(s[k])
  {
    if s == [] || IsLineBreak(s[0]) then 0 else 1 + LineLength(s[1..])
  }

  /** `s.splitlines()`: no trailing empty line for a final boundary, `[]` for `""`. */
  function SplitLines(s: string): (r: seq<string>)
    ensures s == [] <==> r == []
    decreases |s|
  {
    if s == [] then []
    else
      var k := LineLength(s);
      if k == |s| then [s]
      else
        var skip := if s[k] == '\r' && k + 1 < |s| && s[k + 1] == '\n' then 2 else 1;
        [s[..k]] + SplitLines(s[k + skip..])
  }

  predicate IsDigit(c: char)
  {
    '0' <= c <= '9'
  }

  /** Value of a run of ASCII digits, `_` separators skipped. */
  function DigitsValue(s: string): nat
  {
    if s == [] then 0
    else if s[|s| - 1] == '_' then DigitsValue(s[..|s| - 1])
    else if IsDigit(s[|s| - 1]) then DigitsValue(s[..|s| - 1]) * 10 + (s[|s| - 1] as int - '0' as int)
    else DigitsValue(s[..|s| - 1]) * 10
  }

  /** A well-formed digit body of `int()`: digits, with single `_` only between digits. */
  predicate WellFormedDigits(s: string)
  {
    && s != []
    && IsDigit(s[0]) && IsDigit(s[|s| - 1])
    && (forall i :: 0 <= i < |s| ==> IsDigit(s[i]) || s[i] == '_')
    && (forall i :: 0 <= i < |s| - 1 ==> !(s[i] == '_' && s[i + 1] == '_'))
  }

  /** `int(s)` for a `str`: surrounding whitespace, an optional sign, ASCII digits. `None` is `ValueError`. */
  function ParseInt(s: string): (r: Option<int>)
    ensures r.Some? ==> Strip(s) != []
  {
    var t := Strip(s);
    var neg := t != [] && t[0] == '-';
    var body := if t != [] && (t[0] == '-' || t[0] == '+') then t[1..] else t;
    var v: int := DigitsValue(body);
    if WellFormedDigits(body) then Some(if neg then -v else v)
    else None
  }

  // ----- lemmas -----

  /** Joining the pieces of `split(sep)` with `sep` gives back the string. */
  lemma {:induction false} JoinSplit(s: string, sep: char)
    ensures Join([sep], Split(s, sep)) == s
    decreases |s|
  {
    if s == [] {
    } else if s[0] == sep {
      JoinSplit(s[1..], sep);
      var rest := Split(s[1..], sep);
      assert Split(s, sep) == [""] + rest;
      assert ([""] + rest)[1..] == rest;
      assert s == [sep] + s[1..];
    } else {
      JoinSplit(s[1..], sep);
      var rest := Split(s[1..], sep);
      var parts := [[s[0]] + rest[0]] + rest[1..];
      assert Split(s, sep) == parts;
      if |rest| == 1 {
        assert Join([sep], parts) == [s[0]] + rest[0];
        assert s == [s[0]] + s[1..];
      } else {
        assert parts[1..] == rest[1..];
        assert Join([sep], parts) == ([s[0]] + rest[0]) + [sep] + Join([sep], rest[1..]);
        assert Join([sep], rest) == rest[0] + [sep] + Join([sep], rest[1..]);
        assert s == [s[0]] + s[1..];
      }
    }
  }

  /** No piece of `split(sep)` contains `sep`. */
  lemma {:induction false} SplitPiecesAvoidSep(s: string, sep: char)
    ensures forall i :: 0 <= i < |Split(s, sep)| ==> sep !in Split(s, sep)[i]
    decreases |s|
  {
    if s != [] {
      SplitPiecesAvoidSep(s[1..], sep);
      var rest := Split(s[1..], sep);
      if s[0] != sep {
        var parts := [[s[0]] + rest[0]] + rest[1..];
        assert Split(s, sep) == parts;
        forall i | 0 <= i < |parts| ensures sep !in parts[i] {
          if i == 0 {
            assert sep !in rest[0];
          } else {
            assert parts[i] == rest[i];
          }
        }
      } else {
        assert Split(s, sep) == [""] + rest;
      }
    }
  }

  /** A character absent from `s` is absent from every piece of `s.split(sep)`. */
  lemma {:induction false} SplitPiecesAvoid(s: string, sep: char, c: char)
    requires c !in s
    ensures forall i :: 0 <= i < |Split(s, sep)| ==> c !in Split(s, sep)[i]
    decreases |s|
  {
    if s != [] {
      assert c !in s[1..] by {
        forall j | 0 <= j < |s[1..]| ensures s[1..][j] != c {
          assert s[1..][j] == s[j + 1];
        }
      }
      SplitPiecesAvoid(s[1..], sep, c);
      var rest := Split(s[1..], sep);
      if s[0] != sep {
        var parts := [[s[0]] + rest[0]] + rest[1..];
        assert Split(s, sep) == parts;
        forall i | 0 <= i < |parts| ensures c !in parts[i] {
          if i == 0 {
            assert c !in rest[0];
            assert s[0] != c;
          } else {
            assert parts[i] == rest[i];
          }
        }
      } else {
        assert Split(s, sep) == [""] + rest;
      }
    }
  }

  /** Without the separator, `split(sep)` gives the string alone. */
  lemma {:induction false} SplitNoSep(s: string, sep: char)
    requires sep !in s
    ensures Split(s, sep) == [s]
    decreases |s|
  {
    if s != [] {
      assert sep !in s[1..] by {
        forall j | 0 <= j < |s[1..]| ensures s[1..][j] != sep {
          assert s[1..][j] == s[j + 1];
        }
      }
      SplitNoSep(s[1..], sep);
      assert [s[0]] + s[1..] == s;
    }
  }

  /** A character in neither the separator nor any part is not in the join. */
  lemma {:induction false} JoinAvoids(sep: string, parts: seq<string>, c: char)
    requires c !in sep && forall i :: 0 <= i < |parts| ==> c !in parts[i]
    ensures c !in Join(sep, parts)
    decreases |parts|
  {
    if |parts| > 1 {
      assert forall i :: 0 <= i < |parts[1..]| ==> parts[1..][i] == parts[i + 1];
      JoinAvoids(sep, parts[1..], c);
    }
  }

  /** A leading piece without the separator splits off: `(w + sep + t).split(sep)` is `[w] + t.split(sep)`. */
  lemma {:induction false} SplitAfterWord(w: string, sep: char, t: string)
    requires sep !in w
    ensures Split(w + [sep] + t, sep) == [w] + Split(t, sep)
    decreases |w|
  {
    var s := w + [sep] + t;
    if w == [] {
      assert s == [sep] + t;
      assert s[1..] == t;
    } else {
      assert sep !in w[1..] by {
        forall j | 0 <= j < |w[1..]| ensures w[1..][j] != sep {
          assert w[1..][j] == w[j + 1];
        }
      }
      SplitAfterWord(w[1..], sep, t);
      assert s[0] == w[0] && s[1..] == w[1..] + [sep] + t;
      var rest := Split(s[1..], sep);
      assert rest == [w[1..]] + Split(t, sep);
      assert Split(s, sep) == [[w[0]] + rest[0]] + rest[1..];
      assert [w[0]] + w[1..] == w;
    }
  }

  lemma {:induction false} ReplaceCharAppend(a: string, b: string, c: char, r: string)
    ensures ReplaceChar(a + b, c, r) == ReplaceChar(a, c, r) + ReplaceChar(b, c, r)
    decreases |a|
  {
    if a == [] {
      assert a + b == b;
    } else {
      assert (a + b)[0] == a[0];
      assert (a + b)[1..] == a[1..] + b;
      ReplaceCharAppend(a[1..], b, c, r);
    }
  }

  /**
   * Replacing the separator of a join by another separator re-joins with the
   * other separator, as long as no part contains the first one.
   */
  lemma {:induction false} ReplaceJoinSeparator(parts: seq<string>, a: char, b: char)
    requires forall i :: 0 <= i < |parts| ==> a !in parts[i]
    ensures ReplaceChar(Join([a], parts), a, [b]) == Join([b], parts)
    decreases |parts|
  {
    if |parts| == 0 {
    } else if |parts| == 1 {
    } else {
      ReplaceJoinSeparator(parts[1..], a, b);
      ReplaceCharAppend(parts[0] + [a], Join([a], parts[1..]), a, [b]);
      ReplaceCharAppend(parts[0], [a], a, [b]);
      assert ReplaceChar([a], a, [b]) == [b];
    }
  }

  /** `(a + b).split()` is `a.split() + b.split()` when no word straddles the seam. */
  lemma {:induction false} SplitWsConcat(a: string, b: string)
    requires a == [] || b == [] || IsSpace(a[|a| - 1]) || IsSpace(b[0])
    ensures SplitWs(a + b) == SplitWs(a) + SplitWs(b)
    decreases |a|, 1
  {
    LStripConcat(a, b);
    if LStrip(a) == [] {
      SplitWsLStrip(a);
      SplitWsLStrip(a + b);
      SplitWsLStrip(b);
      var q := SplitWs(b);
      assert SplitWs(a) == [];
      assert SplitWs(a + b) == q;
      assert [] + q == q;
    } else {
      SplitWsConcatWord(a, b);
    }
  }

  lemma {:induction false} SplitWsConcatWord(a: string, b: string)
    requires LStrip(a) != []
    requires b == [] || IsSpace(a[|a| - 1]) || IsSpace(b[0])
    ensures SplitWs(a + b) == SplitWs(a) + SplitWs(b)
    decreases |a|, 0
  {
    var word, rest := FirstWordStep(a, b);
    SplitWsConcat(rest, b);
    ConcatAssoc([word], SplitWs(rest), SplitWs(b));
  }

  /** The first word of `a` is the first word of `a + b`; both splits go on with the same rest. */
  lemma FirstWordStep(a: string, b: string) returns (word: string, rest: string)
    requires LStrip(a) != []
    requires b == [] || IsSpace(a[|a| - 1]) || IsSpace(b[0])
    ensures |rest| < |a|
    ensures rest == [] || rest[|rest| - 1] == a[|a| - 1]
    ensures SplitWs(a) == [word] + SplitWs(rest)
    ensures SplitWs(a + b) == [word] + SplitWs(rest + b)
  {
    var la := LStrip(a);
    var k := TokenLength(la);
    SplitWsUnfold(a, la, k);
    SplitWsConcatUnfold(a, b, la, k);
    RestEndsLikeA(a, la, k);
    word, rest := la[..k], la[k..];
  }

  /** After the first word of `a`, `split()` of `a + b` goes on with the rest of `a`, then `b`. */
  lemma SplitWsConcatUnfold(a: string, b: string, la: string, k: nat)
    requires la == LStrip(a) && la != [] && k == TokenLength(la)
    requires b == [] || IsSpace(a[|a| - 1]) || IsSpace(b[0])
    ensures SplitWs(a + b) == [la[..k]] + SplitWs(la[k..] + b)
  {
    FrontOfConcat(a, b, la, k);
    SplitWsUnfold(a + b, la + b, k);
  }

  /** With no word across the seam, `a + b` strips to `LStrip(a) + b` and starts with the same word. */
  lemma FrontOfConcat(a: string, b: string, la: string, k: nat)
    requires la == LStrip(a) && la != [] && k == TokenLength(la)
    requires b == [] || IsSpace(a[|a| - 1]) || IsSpace(b[0])
    ensures LStrip(a + b) == la + b && TokenLength(la + b) == k
    ensures k <= |la| && (la + b)[..k] == la[..k] && (la + b)[k..] == la[k..] + b
  {
    SuffixLast(a, la);
    TokenLengthConcat(la, b);
    LStripConcat(a, b);
    SliceConcat(la, b, k);
  }

  /** A non-empty suffix ends with the same character. */
  lemma SuffixLast(a: string, la: string)
    requires la != [] && |la| <= |a| && la == a[|a| - |la|..]
    ensures la[|la| - 1] == a[|a| - 1]
  {
  }

  /** What is left of a suffix `la` of `a` after `k` characters is empty or ends like `a`. */
  lemma RestEndsLikeA(a: string, la: string, k: nat)
    requires la != [] && |la| <= |a| && la == a[|a| - |la|..] && k <= |la|
    ensures la[k..] == [] || la[k..][|la[k..]| - 1] == a[|a| - 1]
  {
    assert la[|la| - 1] == a[|a| - 1];
  }

  /** One step of `split()`: the first word, then the split of what follows it. */
  lemma SplitWsUnfold(s: string, t: string, k: nat)
    requires t == LStrip(s) && t != [] && k == TokenLength(t)
    ensures 0 < k && SplitWs(s) == [t[..k]] + SplitWs(t[k..])
  {
  }

  /** A word: non-empty and without whitespace. */
  predicate IsWord(w: string)
  {
    w != [] && forall i :: 0 <= i < |w| ==> !IsSpace(w[i])
  }

  lemma {:induction false} TokenLengthWord(w: string)
    requires forall i :: 0 <= i < |w| ==> !IsSpace(w[i])
    ensures TokenLength(w) == |w|
  {
    if w != [] {
      assert forall i :: 0 <= i < |w[1..]| ==> w[1..][i] == w[i + 1];
      TokenLengthWord(w[1..]);
    }
  }

  /** A word followed by whitespace (or by nothing) is the first token. */
  lemma SplitWsWordThen(w: string, t: string)
    requires IsWord(w)
    requires t == [] || IsSpace(t[0])
    ensures SplitWs(w + t) == [w] + SplitWs(t)
  {
    var s := w + t;
    assert s[0] == w[0];
    assert LStrip(s) == s;
    TokenLengthWord(w);
    TokenLengthConcat(w, t);
    assert s[..|w|] == w && s[|w|..] == t;
  }

  /** Leading whitespace does not change `split()`. */
  lemma SplitWsSpaceThen(t: string)
    ensures SplitWs(" " + t) == SplitWs(t)
  {
    var s := " " + t;
    assert s[1..] == t;
    assert IsSpace(s[0]);
    assert LStrip(s) == LStrip(t);
  }

  /** `s.replace(pat, rep)` leaves `s` alone when the first character of `pat` never occurs in it. */
  lemma {:induction false} ReplaceAllAbsent(s: string, pat: string, rep: string)
    requires |pat| > 0 && forall i :: 0 <= i < |s| ==> s[i] != pat[0]
    ensures ReplaceAll(s, pat, rep) == s
    decreases |s|
  {
    if |s| >= |pat| {
      assert s[..|pat|][0] == s[0];
      assert forall i :: 0 <= i < |s[1..]| ==> s[1..][i] == s[i + 1];
      ReplaceAllAbsent(s[1..], pat, rep);
      assert [s[0]] + s[1..] == s;
    }
  }

  /** ... and then `pat in s` is false. */
  lemma AbsentNotContained(s: string, pat: string)
    requires |pat| > 0 && forall i :: 0 <= i < |s| ==> s[i] != pat[0]
    ensures !ContainsSub(s, pat)
  {
    forall i | 0 <= i <= |s| - |pat|
      ensures !OccursAt(s, pat, i)
    {
      assert s[i..i + |pat|][0] == s[i];
    }
  }

  lemma SliceConcat<T>(x: seq<T>, y: seq<T>, k: nat)
    requires k <= |x|
    ensures (x + y)[..k] == x[..k] && (x + y)[k..] == x[k..] + y
  {
  }

  lemma ConcatAssoc<T>(x: seq<T>, y: seq<T>, z: seq<T>)
    ensures x + (y + z) == (x + y) + z
  {
  }

  lemma SplitWsLStrip(s: string)
    ensures SplitWs(s) == SplitWs(LStrip(s))
  {
    LStripIdempotent(s);
  }

  lemma {:induction false} LStripIdempotent(s: string)
    ensures LStrip(LStrip(s)) == LStrip(s)
  {
    if s != [] && IsSpace(s[0]) {
      LStripIdempotent(s[1..]);
    }
  }

  lemma {:induction false} LStripConcat(a: string, b: string)
    ensures LStrip(a) == [] ==> LStrip(a + b) == LStrip(b)
    ensures LStrip(a) != [] ==> LStrip(a + b) == LStrip(a) + b
  {
    if a == [] {
      assert a + b == b;
    } else {
      var ab := a + b;
      assert ab[0] == a[0];
      if IsSpace(a[0]) {
        assert ab[1..] == a[1..] + b;
        assert LStrip(ab) == LStrip(a[1..] + b);
        assert LStrip(a) == LStrip(a[1..]);
        LStripConcat(a[1..], b);
      } else {
        assert LStrip(ab) == ab;
        assert LStrip(a) == a;
      }
    }
  }

  lemma {:induction false} TokenLengthConcat(x: string, b: string)
    requires x != [] && (b == [] || IsSpace(b[0]) || IsSpace(x[|x| - 1]))
    ensures TokenLength(x + b) == TokenLength(x)
  {
    assert (x + b)[0] == x[0];
    if !IsSpace(x[0]) && |x| > 1 {
      assert (x + b)[1..] == x[1..] + b;
      TokenLengthConcat(x[1..], b);
    } else if !IsSpace(x[0]) {
      assert (x + b)[1..] == b;
      assert x[1..] == [];
    }
  }
}

/** Bytes and the fixed-width integer fields the wire formats use. */
module Bytes {

  type Byte = x: int | 0 <= x < 256

  /** The byte order of Python's `struct` native mode (`"I"` without a prefix): the host's. */
  datatype ByteOrder = Little | Big

  function Pow256(n: nat): (p: nat)
    ensures p >= 1
  {
    if n == 0 then 1 else 256 * Pow256(n - 1)
  }

  /** `v.to_bytes(n, "big")` */
  function BigEndian(v: nat, n: nat): (r: seq<Byte>)
    requires v < Pow256(n)
    ensures |r| == n
  {
    if n == 0 then [] else BigEndian(v / 256, n - 1) + [v % 256]
  }

  /** `int.from_bytes(s, "big")` (0 for an empty `s`). */
  function BigEndianValue(s: seq<Byte>): (v: nat)
    ensures v < Pow256(|s|)
  {
    if s == [] then 0
    else
      var hi := BigEndianValue(s[..|s| - 1]);
      assert hi * 256 + s[|s| - 1] < Pow256(|s|) by {
        assert hi + 1 <= Pow256(|s| - 1);
        assert (hi + 1) * 256 <= Pow256(|s| - 1) * 256;
      }
      hi * 256 + s[|s| - 1]
  }

  /** Little-endian `n`-byte unsigned field. */
  function LittleEndian(v: nat, n: nat): (r: seq<Byte>)
    requires v < Pow256(n)
    ensures |r| == n
  {
    if n == 0 then [] else [v % 256] + LittleEndian(v / 256, n - 1)
  }

  function LittleEndianValue(s: seq<Byte>): (v: nat)
    ensures v < Pow256(|s|)
  {
    if s == [] then 0
    else
      var hi := LittleEndianValue(s[1..]);
      assert s[0] + 256 * hi < Pow256(|s|) by {
        assert hi + 1 <= Pow256(|s| - 1);
        assert 256 * (hi + 1) <= 256 * Pow256(|s| - 1);
      }
      s[0] + 256 * hi
  }

  const TwoTo31: int := 0x8000_0000
  const TwoTo32: int := 0x1_0000_0000

  lemma Pow256Four()
    ensures Pow256(4) == TwoTo32 && Pow256(2) == 0x1_0000
  {
  }

  /** `struct.pack("<i", v)`: a signed 32-bit field in two's complement. */
  function Int32Le(v: int): (r: seq<Byte>)
    requires -TwoTo31 <= v < TwoTo31
    ensures |r| == 4
  {
    Pow256Four();
    LittleEndian(if v < 0 then v + TwoTo32 else v, 4)
  }

  /** `struct.unpack("<i", s)` for exactly four bytes. */
  function Int32LeValue(s: seq<Byte>): (v: int)
    requires |s| == 4
    ensures -TwoTo31 <= v < TwoTo31
  {
    Pow256Four();
    var u := LittleEndianValue(s);
    if u >= TwoTo31 then u - TwoTo32 else u
  }

  /** `struct.pack("I", v)` in the host byte order. */
  function UInt32(v: nat, order: ByteOrder): (r: seq<Byte>)
    requires v < TwoTo32
    ensures |r| == 4
  {
    Pow256Four();
    if order == Big then BigEndian(v, 4) else LittleEndian(v, 4)
  }

  /** `struct.unpack("I", s)` for exactly four bytes. */
  function UInt32Value(s: seq<Byte>, order: ByteOrder): (v: nat)
    requires |s| == 4
    ensures v < TwoTo32
  {
    Pow256Four();
    if order == Big then BigEndianValue(s) else LittleEndianValue(s)
  }

  // ----- round trips -----

  lemma {:induction false} BigEndianRoundTrip(v: nat, n: nat)
    requires v < Pow256(n)
    ensures BigEndianValue(BigEndian(v, n)) == v
  {
    if n > 0 {
      assert v / 256 < Pow256(n - 1);
      BigEndianRoundTrip(v / 256, n - 1);
      var s := BigEndian(v, n);
      assert s[..|s| - 1] == BigEndian(v / 256, n - 1);
    }
  }

  lemma {:induction false} LittleEndianRoundTrip(v: nat, n: nat)
    requires v < Pow256(n)
    ensures LittleEndianValue(LittleEndian(v, n)) == v
  {
    if n > 0 {
      assert v / 256 < Pow256(n - 1);
      LittleEndianRoundTrip(v / 256, n - 1);
      var s := LittleEndian(v, n);
      assert s[1..] == LittleEndian(v / 256, n - 1);
    }
  }

  lemma Int32RoundTrip(v: int)
    requires -TwoTo31 <= v < TwoTo31
    ensures Int32LeValue(Int32Le(v)) == v
  {
    Pow256Four();
    LittleEndianRoundTrip(if v < 0 then v + TwoTo32 else v, 4);
  }

  lemma UInt32RoundTrip(v: nat, order: ByteOrder)
    requires v < TwoTo32
    ensures UInt32Value(UInt32(v, order), order) == v
  {
    Pow256Four();
    if order == Big { BigEndianRoundTrip(v, 4); } else { LittleEndianRoundTrip(v, 4); }
  }
}

/**
 * A Python `dict` with `str` keys, as an association list in insertion
 * order: assigning to an existing key keeps its place, a new key goes
 * last, and `pop` removes the entry.
 */
module StrDict {
  import opened Wrappers

  /** No two entries share a key. */
  predicate UniqueNames<T>(s: seq<(string, T)>)
  {
    forall j, k :: 0 <= j < k < |s| ==> s[j].0 != s[k].0
  }

  /** `k in d` */
  predicate HasName<T>(s: seq<(string, T)>, k: string)
  {
    exists j :: 0 <= j < |s| && s[j].0 == k
  }

  /** The names of a prefix grow one at a time, and a prefix has no name the whole lacks. */
  lemma HasNamePrefix<T>(s: seq<(string, T)>, i: nat)
    requires i < |s|
    ensures forall k :: HasName(s[..i + 1], k) <==> HasName(s[..i], k) || s[i].0 == k
    ensures forall k :: HasName(s[..i], k) ==> HasName(s, k)
  {
    var p, q := s[..i], s[..i + 1];
    forall k
      ensures HasName(q, k) <==> HasName(p, k) || s[i].0 == k
      ensures HasName(p, k) ==> HasName(s, k)
    {
      if HasName(q, k) {
        var j :| 0 <= j < |q| && q[j].0 == k;
        if j < i {
          assert p[j] == q[j];
        }
      }
      if HasName(p, k) {
        var j :| 0 <= j < |p| && p[j].0 == k;
        assert q[j] == p[j] && s[j] == p[j];
      }
      if s[i].0 == k {
        assert q[i] == s[i];
      }
    }
  }

  /** With no name repeated, the `i`-th name is not among the earlier ones. */
  lemma HasNameUnique<T>(s: seq<(string, T)>, i: nat)
    requires i < |s| && UniqueNames(s)
    ensures !HasName(s[..i], s[i].0)
  {
  }

  /** The position of the first entry under `k`. */
  function Find<T>(s: seq<(string, T)>, k: string): (r: Option<nat>)
    ensures r.Some? ==> r.value < |s| && s[r.value].0 == k && forall j :: 0 <= j < r.value ==> s[j].0 != k
    ensures r.None? <==> !HasName(s, k)
  {
    if s == [] then None
    else if s[0].0 == k then Some(0)
    else match Find(s[1..], k)
      case None =>
        assert forall j :: 1 <= j < |s| ==> s[j] == s[1..][j - 1];
        None
      case Some(j) => Some(j + 1)
  }

  /** `d.get(k)` */
  function Get<T>(s: seq<(string, T)>, k: string): (r: Option<T>)
    ensures r.Some? <==> HasName(s, k)
  {
    match Find(s, k)
    case None => None
    case Some(j) => Some(s[j].1)
  }

  /** `d[k] = v` */
  function Put<T>(s: seq<(string, T)>, k: string, v: T): (r: seq<(string, T)>)
    ensures |r| == |s| || |r| == |s| + 1
  {
    match Find(s, k)
    case None => s + [(k, v)]
    case Some(j) => s[j := (k, v)]
  }

  /** `d.pop(k, None)` for the entry's effect on `d`. */
  function Pop<T>(s: seq<(string, T)>, k: string): (r: seq<(string, T)>)
    ensures |r| <= |s|
  {
    match Find(s, k)
    case None => s
    case Some(j) => s[..j] + s[j + 1..]
  }

  /** The entries whose key is not in `names`, in order. */
  function Without<T>(s: seq<(string, T)>, names: set<string>): (r: seq<(string, T)>)
    ensures |r| <= |s|
  {
    if s == [] then []
    else (if s[0].0 in names then [] else [s[0]]) + Without(s[1..], names)
  }

  function Keys<T>(s: seq<(string, T)>): (r: seq<string>)
    ensures |r| == |s| && forall j :: 0 <= j < |s| ==> r[j] == s[j].0
  {
    if s == [] then [] else [s[0].0] + Keys(s[1..])
  }

  /** After `d[k] = v`, `d[k]` is `v`, every other key reads as before, the key set grows by `k`, and keys stay unique. */
  /** Reading one key after a `Put`. */
  lemma PutGet<T>(s: seq<(string, T)>, k: string, v: T, x: string)
    ensures Get(Put(s, k, v), x) == if x == k then Some(v) else Get(s, x)
  {
    PutFacts(s, k, v);
  }

  lemma PutFacts<T>(s: seq<(string, T)>, k: string, v: T)
    ensures Get(Put(s, k, v), k) == Some(v)
    ensures forall x :: x != k ==> Get(Put(s, k, v), x) == Get(s, x)
    ensures forall x :: HasName(Put(s, k, v), x) <==> HasName(s, x) || x == k
    ensures UniqueNames(s) ==> UniqueNames(Put(s, k, v))
  {
    if Find(s, k).None? {
      PutNewFacts(s, k, v);
    } else {
      PutOldFacts(s, k, v);
    }
  }

  lemma PutNewFacts<T>(s: seq<(string, T)>, k: string, v: T)
    requires Find(s, k).None?
    ensures Put(s, k, v) == s + [(k, v)]
    ensures forall x :: x != k ==> Get(Put(s, k, v), x) == Get(s, x)
    ensures forall x :: HasName(Put(s, k, v), x) <==> HasName(s, x) || x == k
    ensures Get(Put(s, k, v), k) == Some(v)
    ensures UniqueNames(s) ==> UniqueNames(Put(s, k, v))
  {
    var r := Put(s, k, v);
    assert r == s + [(k, v)];
    forall x | x != k ensures Get(r, x) == Get(s, x) {
      FindAppend(s, (k, v), x);
    }
    forall x ensures HasName(r, x) <==> HasName(s, x) || x == k {
      HasNameConcat(s, [(k, v)], x);
      HasNameCons([(k, v)], x);
      assert [(k, v)][1..] == [];
    }
    assert Get(r, k) == Some(v) by {
      FindNewLast(s, k, v);
    }
    if UniqueNames(s) {
      AppendNewUnique(s, k, v);
    }
  }

  /** A name not in `s`, appended, is found at the end. */
  lemma FindNewLast<T>(s: seq<(string, T)>, k: string, v: T)
    requires !HasName(s, k)
    ensures Find(s + [(k, v)], k) == Some(|s|)
  {
    var r := s + [(k, v)];
    assert r[|s|].0 == k;
    assert HasName(r, k);
    assert forall i :: 0 <= i < |s| ==> r[i] == s[i];
  }

  /** Appending a name not in `s` keeps the names distinct. */
  lemma AppendNewUnique<T>(s: seq<(string, T)>, k: string, v: T)
    requires UniqueNames(s) && !HasName(s, k)
    ensures UniqueNames(s + [(k, v)])
  {
    var r := s + [(k, v)];
    forall i, j | 0 <= i < j < |r| ensures r[i].0 != r[j].0 {
      assert r[i] == s[i];
      if j < |s| {
        assert r[j] == s[j];
      }
    }
  }

  lemma PutOldFacts<T>(s: seq<(string, T)>, k: string, v: T)
    requires Find(s, k).Some?
    ensures forall x :: x != k ==> Get(Put(s, k, v), x) == Get(s, x)
    ensures forall x :: HasName(Put(s, k, v), x) <==> HasName(s, x) || x == k
    ensures Get(Put(s, k, v), k) == Some(v)
    ensures UniqueNames(s) ==> UniqueNames(Put(s, k, v))
  {
    var j := Find(s, k).value;
    var r := Put(s, k, v);
    assert r == s[j := (k, v)];
    assert forall i :: 0 <= i < |s| ==> r[i].0 == s[i].0;
    forall x ensures Find(r, x) == Find(s, x) {
      FindSameKeys(s, r, x);
    }
    forall x | x != k ensures Get(r, x) == Get(s, x) {
      var f := Find(s, x);
      if f.Some? {
        assert f.value != j;
        assert r[f.value] == s[f.value];
      }
    }
    assert Get(r, k) == Some(r[j].1);
    forall x ensures HasName(r, x) <==> HasName(s, x) || x == k {
      assert Find(r, x).None? <==> Find(s, x).None?;
    }
  }

  /** Finding a key other than the appended one ignores the appended entry. */
  lemma FindAppend<T>(s: seq<(string, T)>, e: (string, T), x: string)
    requires e.0 != x
    ensures Find(s + [e], x) == Find(s, x)
  {
    var r := Find(s + [e], x);
    if r.Some? {
      assert r.value < |s| && (s + [e])[r.value] == s[r.value];
      assert forall j :: 0 <= j < r.value ==> (s + [e])[j] == s[j];
    } else {
      assert forall j :: 0 <= j < |s| ==> (s + [e])[j] == s[j];
    }
    var q := Find(s, x);
    if q.Some? {
      assert (s + [e])[q.value] == s[q.value];
      assert forall j :: 0 <= j < q.value ==> (s + [e])[j] == s[j];
    }
  }

  /** Two lists with the same keys in the same places find every key in the same place. */
  lemma {:induction false} FindSameKeys<T>(a: seq<(string, T)>, b: seq<(string, T)>, x: string)
    requires |a| == |b| && forall i :: 0 <= i < |a| ==> a[i].0 == b[i].0
    ensures Find(a, x) == Find(b, x)
  {
    if a != [] {
      FindSameKeys(a[1..], b[1..], x);
    }
  }

  /** With unique keys, `pop` is the list without that key's entry. */
  lemma {:induction false} PopIsWithout<T>(s: seq<(string, T)>, k: string)
    requires UniqueNames(s)
    ensures Pop(s, k) == Without(s, {k})
  {
    if s != [] {
      UniqueTail(s);
      PopIsWithout(s[1..], k);
      if s[0].0 == k {
        forall j | 0 <= j < |s[1..]| ensures s[1..][j].0 != k {
          assert s[1..][j] == s[j + 1];
        }
        WithoutAbsent(s[1..], {k});
      } else {
        PopCons(s, k);
      }
    }
  }

  lemma UniqueTail<T>(s: seq<(string, T)>)
    requires s != [] && UniqueNames(s)
    ensures UniqueNames(s[1..])
  {
    forall a, b | 0 <= a < b < |s[1..]| ensures s[1..][a].0 != s[1..][b].0 {
      assert s[1..][a] == s[a + 1] && s[1..][b] == s[b + 1];
    }
  }

  /** Popping a key other than the first one leaves the first entry in front. */
  lemma PopCons<T>(s: seq<(string, T)>, k: string)
    requires s != [] && s[0].0 != k
    ensures Pop(s, k) == [s[0]] + Pop(s[1..], k)
  {
    match Find(s[1..], k)
    case None =>
    case Some(j) =>
      assert Find(s, k) == Some(j + 1);
      assert s[..j + 1] + s[j + 2..] == [s[0]] + (s[1..][..j] + s[1..][j + 1..]);
  }

  /** Removing names that do not occur changes nothing. */
  lemma {:induction false} WithoutAbsent<T>(s: seq<(string, T)>, names: set<string>)
    requires forall x :: x in names ==> !HasName(s, x)
    ensures Without(s, names) == s
  {
    if s != [] {
      assert s[0].0 !in names by {
        if s[0].0 in names {
          assert HasName(s, s[0].0);
        }
      }
      assert forall x :: x in names ==> !HasName(s[1..], x) by {
        forall x, j | x in names && 0 <= j < |s[1..]| ensures s[1..][j].0 != x {
          assert s[1..][j] == s[j + 1];
          assert !HasName(s, x);
        }
      }
      WithoutAbsent(s[1..], names);
      assert s == [s[0]] + s[1..];
    }
  }

  /** Removing one name after others removes them all, and the result keeps only the other entries, in order. */
  lemma {:induction false} WithoutTwice<T>(s: seq<(string, T)>, a: set<string>, b: set<string>)
    ensures Without(Without(s, a), b) == Without(s, a + b)
  {
    if s != [] {
      WithoutTwice(s[1..], a, b);
      var head := if s[0].0 in a then [] else [s[0]];
      WithoutAppend(head, Without(s[1..], a), b);
    }
  }

  lemma {:induction false} WithoutAppend<T>(x: seq<(string, T)>, y: seq<(string, T)>, names: set<string>)
    ensures Without(x + y, names) == Without(x, names) + Without(y, names)
  {
    if x != [] {
      assert (x + y)[0] == x[0] && (x + y)[1..] == x[1..] + y;
      WithoutAppend(x[1..], y, names);
    } else {
      assert x + y == y;
    }
  }

  /** The keys left after removing `names`: exactly the others. */
  lemma {:induction false} WithoutNames<T>(s: seq<(string, T)>, names: set<string>, x: string)
    ensures HasName(Without(s, names), x) <==> HasName(s, x) && x !in names
  {
    if s != [] {
      WithoutNames(s[1..], names, x);
      var head: seq<(string, T)> := if s[0].0 in names then [] else [s[0]];
      var rest := Without(s[1..], names);
      assert Without(s, names) == head + rest;
      HasNameConcat(head, rest, x);
      HasNameCons(s, x);
      if head != [] {
        HasNameCons(head, x);
        assert head[1..] == [];
      }
    }
  }

  lemma HasNameConcat<T>(a: seq<(string, T)>, b: seq<(string, T)>, x: string)
    ensures HasName(a + b, x) <==> HasName(a, x) || HasName(b, x)
  {
    var c := a + b;
    if HasName(c, x) {
      var j :| 0 <= j < |c| && c[j].0 == x;
      if j >= |a| {
        assert b[j - |a|] == c[j];
      } else {
        assert a[j] == c[j];
      }
    }
    if HasName(a, x) {
      var j :| 0 <= j < |a| && a[j].0 == x;
      assert c[j] == a[j];
    }
    if HasName(b, x) {
      var j :| 0 <= j < |b| && b[j].0 == x;
      assert c[j + |a|] == b[j];
    }
  }

  lemma HasNameCons<T>(s: seq<(string, T)>, x: string)
    requires s != []
    ensures HasName(s, x) <==> s[0].0 == x || HasName(s[1..], x)
  {
    if HasName(s, x) && s[0].0 != x {
      var j :| 0 <= j < |s| && s[j].0 == x;
      assert s[1..][j - 1] == s[j];
    }
    if HasName(s[1..], x) {
      var j :| 0 <= j < |s[1..]| && s[1..][j].0 == x;
      assert s[j + 1] == s[1..][j];
    }
  }

  /** Removing entries keeps the keys unique. */
  lemma {:induction false} WithoutUnique<T>(s: seq<(string, T)>, names: set<string>)
    requires UniqueNames(s)
    ensures UniqueNames(Without(s, names))
  {
    if s != [] {
      assert UniqueNames(s[1..]) by {
        forall a, b | 0 <= a < b < |s[1..]| ensures s[1..][a].0 != s[1..][b].0 {
          assert s[1..][a] == s[a + 1] && s[1..][b] == s[b + 1];
        }
      }
      WithoutUnique(s[1..], names);
      var head: seq<(string, T)> := if s[0].0 in names then [] else [s[0]];
      var rest := Without(s[1..], names);
      forall i | 0 <= i < |s[1..]| ensures s[1..][i].0 != s[0].0 {
        assert s[1..][i] == s[i + 1];
      }
      WithoutNames(s[1..], names, s[0].0);
      assert !HasName(rest, s[0].0);
      assert Without(s, names) == head + rest;
      forall a, b | 0 <= a < b < |head + rest| ensures (head + rest)[a].0 != (head + rest)[b].0 {
        if a < |head| {
          assert (head + rest)[b] == rest[b - |head|];
        } else {
          assert (head + rest)[a] == rest[a - |head|] && (head + rest)[b] == rest[b - |head|];
        }
      }
    }
  }

  /** With unique keys, every entry is what `get` of its key returns. */
  lemma GetUnique<T>(s: seq<(string, T)>, j: nat)
    requires UniqueNames(s) && j < |s|
    ensures Get(s, s[j].0) == Some(s[j].1)
  {
    assert HasName(s, s[j].0);
  }

  /** An entry whose key is not removed survives `Without`. */
  lemma {:induction false} WithoutKeeps<T>(s: seq<(string, T)>, names: set<string>, j: nat)
    requires j < |s| && s[j].0 !in names
    ensures s[j] in Without(s, names)
  {
    if j > 0 {
      assert s[1..][j - 1] == s[j];
      WithoutKeeps(s[1..], names, j - 1);
    }
  }

  /** With unique keys, `get` of a key not removed still finds its entry. */
  lemma WithoutGet<T>(s: seq<(string, T)>, names: set<string>, j: nat)
    requires UniqueNames(s) && j < |s| && s[j].0 !in names
    ensures Get(Without(s, names), s[j].0) == Some(s[j].1)
  {
    var w := Without(s, names);
    WithoutKeeps(s, names, j);
    WithoutUnique(s, names);
    var i :| 0 <= i < |w| && w[i] == s[j];
    GetUnique(w, i);
  }
}
