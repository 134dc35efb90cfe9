/**
 * The console command table of `server/core/command.py`: command names in
 * insertion order with an optional display text, and the choice of the
 * command a console line calls.
 */
module Commands {
  import opened Wrappers
  import opened PyStr
  import opened StrDict

  /** The argument of `add_commands`: a tuple of names or a dict of names to displays. */
  datatype CommandsArg = TupleArg(names: seq<string>) | DictArg(entries: seq<(string, Option<string>)>)

  /** What `call_command` does with a line: report an unknown command, or dispatch an event. */
  datatype CallOutcome = Unknown | Dispatch(event: string, args: seq<string>)

  /** The entries `add_commands` merges: a tuple's names all map to no display. */
  function Entries(arg: CommandsArg): (r: seq<(string, Option<string>)>)
    ensures arg.TupleArg? ==> |r| == |arg.names| && forall i :: 0 <= i < |r| ==> r[i] == (arg.names[i], None)
    ensures arg.DictArg? ==> r == arg.entries
  {
    match arg
    case TupleArg(names) => seq(|names|, i requires 0 <= i < |names| => (names[i], None))
    case DictArg(entries) => entries
  }

  /** `dict.update` with the entries in order. */
  function PutAll(s: seq<(string, Option<string>)>, es: seq<(string, Option<string>)>): seq<(string, Option<string>)>
    decreases |es|
  {
    if es == [] then s else Put(PutAll(s, es[..|es| - 1]), es[|es| - 1].0, es[|es| - 1].1)
  }

  /** The value of the last entry of `es` under `x`, if any. */
  function LastValue(es: seq<(string, Option<string>)>, x: string): Option<Option<string>>
    decreases |es|
  {
    if es == [] then None
    else if es[|es| - 1].0 == x then Some(es[|es| - 1].1)
    else LastValue(es[..|es| - 1], x)
  }

  /**
   * After merging, a name given in the entries has its last given display,
   * every other name its old one, and names stay unique.
   */
  lemma {:induction false} PutAllFacts(s: seq<(string, Option<string>)>, es: seq<(string, Option<string>)>, x: string)
    ensures Get(PutAll(s, es), x) == (if LastValue(es, x).Some? then Some(LastValue(es, x).value) else Get(s, x))
    ensures UniqueNames(s) ==> UniqueNames(PutAll(s, es))
    decreases |es|
  {
    if es != [] {
      var init := es[..|es| - 1];
      PutAllFacts(s, init, x);
      PutFacts(PutAll(s, init), es[|es| - 1].0, es[|es| - 1].1);
    }
  }

  // ----- choosing the command -----

  /** The keys of length `n`, in order. */
  function OfLength(keys: seq<string>, n: nat): (r: seq<string>)
    ensures forall i :: 0 <= i < |r| ==> |r[i]| == n
  {
    if keys == [] then []
    else (if |keys[0]| == n then [keys[0]] else []) + OfLength(keys[1..], n)
  }

  /** The keys of lengths `n` to `n + count - 1`, shortest first and in order within a length. */
  function Layers(keys: seq<string>, n: nat, count: nat): seq<string>
    decreases count
  {
    if count == 0 then [] else OfLength(keys, n) + Layers(keys, n + 1, count - 1)
  }

  function MaxLength(keys: seq<string>): (m: nat)
    ensures forall i :: 0 <= i < |keys| ==> |keys[i]| <= m
  {
    if keys == [] then 0
    else
      var m := MaxLength(keys[1..]);
      assert forall i :: 1 <= i < |keys| ==> keys[i] == keys[1..][i - 1];
      if |keys[0]| > m then |keys[0]| else m
  }

  /** `sorted(keys, key=len)`: a stable sort by length. */
  function SortByLength(keys: seq<string>): seq<string>
  {
    Layers(keys, 0, MaxLength(keys) + 1)
  }

  /** The first of `ks` that the line starts with. */
  function FirstPrefix(ks: seq<string>, line: string): (r: Option<string>)
    ensures r.Some? ==> StartsWith(line, r.value)
  {
    if ks == [] then None
    else if StartsWith(line, ks[0]) then Some(ks[0])
    else FirstPrefix(ks[1..], line)
  }

  /** The first key of length `n` that the line starts with. */
  function FirstOfLength(keys: seq<string>, n: nat, line: string): Option<string>
  {
    if keys == [] then None
    else if |keys[0]| == n && StartsWith(line, keys[0]) then Some(keys[0])
    else FirstOfLength(keys[1..], n, line)
  }

  /** The event a key dispatches: `"command_"` and the key with spaces turned into `_`. */
  function CommandEvent(key: string): string
  {
    "command_" + ReplaceChar(key, ' ', "_")
  }

  /** `split[n:]` */
  function Tail<T>(s: seq<T>, n: nat): (r: seq<T>)
    ensures n <= |s| ==> r == s[n..]
    ensures n > |s| ==> r == []
  {
    if n <= |s| then s[n..] else []
  }

  /** What `call_command` does with a line, given the command names in insertion order. */
  function CallSpec(keys: seq<string>, line: string): CallOutcome
  {
    match FirstPrefix(SortByLength(keys), line)
    case None => Unknown
    case Some(base) =>
      if base == [] then Unknown
      else Dispatch(CommandEvent(base), Tail(SplitWs(line), |SplitWs(base)|))
  }

  lemma {:induction false} FirstPrefixAppend(a: seq<string>, b: seq<string>, line: string)
    ensures FirstPrefix(a + b, line) == if FirstPrefix(a, line).Some? then FirstPrefix(a, line) else FirstPrefix(b, line)
  {
    if a == [] {
      assert a + b == b;
    } else {
      assert (a + b)[0] == a[0] && (a + b)[1..] == a[1..] + b;
      FirstPrefixAppend(a[1..], b, line);
    }
  }

  lemma {:induction false} FirstPrefixOfLength(keys: seq<string>, n: nat, line: string)
    ensures FirstPrefix(OfLength(keys, n), line) == FirstOfLength(keys, n, line)
  {
    if keys != [] {
      FirstPrefixOfLength(keys[1..], n, line);
      var head := if |keys[0]| == n then [keys[0]] else [];
      FirstPrefixAppend(head, OfLength(keys[1..], n), line);
      if head != [] {
        assert head[1..] == [];
      }
    }
  }

  /** The first key of length `n` that the line starts with: every earlier key of that length fails. */
  lemma {:induction false} FirstOfLengthFacts(keys: seq<string>, n: nat, line: string)
    ensures FirstOfLength(keys, n, line).None? ==>
      forall j :: 0 <= j < |keys| && StartsWith(line, keys[j]) ==> |keys[j]| != n
    ensures FirstOfLength(keys, n, line).Some? ==> exists i :: 0 <= i < |keys| && FirstAt(keys, n, line, i)
  {
    if keys != [] {
      FirstOfLengthFacts(keys[1..], n, line);
      if !(|keys[0]| == n && StartsWith(line, keys[0])) {
        assert forall j :: 1 <= j < |keys| ==> keys[j] == keys[1..][j - 1];
        if FirstOfLength(keys, n, line).Some? {
          var i :| 0 <= i < |keys[1..]| && FirstAt(keys[1..], n, line, i);
          assert FirstAt(keys, n, line, i + 1);
        }
      } else {
        assert FirstAt(keys, n, line, 0);
      }
    }
  }

  /** `keys[i]` has length `n`, the line starts with it, and no earlier key of length `n` does. */
  predicate FirstAt(keys: seq<string>, n: nat, line: string, i: int)
  {
    0 <= i < |keys| && |keys[i]| == n && StartsWith(line, keys[i])
    && forall j :: 0 <= j < i && StartsWith(line, keys[j]) ==> |keys[j]| != n
  }

  /** Scanning the layers from length `n` finds the first key of the shortest matching length at least `n`. */
  lemma LayersFirst(keys: seq<string>, n: nat, count: nat, line: string)
    ensures FirstPrefix(Layers(keys, n, count), line).None? ==>
      forall j :: 0 <= j < |keys| && StartsWith(line, keys[j]) ==> |keys[j]| < n || |keys[j]| >= n + count
    ensures FirstPrefix(Layers(keys, n, count), line).Some? ==>
      var x := FirstPrefix(Layers(keys, n, count), line).value;
      n <= |x| && FirstOfLength(keys, |x|, line) == Some(x)
      && forall j :: 0 <= j < |keys| && StartsWith(line, keys[j]) && n <= |keys[j]| ==> |x| <= |keys[j]|
  {
    if FirstPrefix(Layers(keys, n, count), line).None? {
      LayersNone(keys, n, count, line);
    } else {
      LayersSome(keys, n, count, line);
    }
  }

  /** One layer: the keys of length `n` are tried first, then the longer layers. */
  lemma LayerStep(keys: seq<string>, n: nat, count: nat, line: string)
    requires count > 0
    ensures FirstPrefix(Layers(keys, n, count), line) ==
      if FirstOfLength(keys, n, line).Some? then FirstOfLength(keys, n, line)
      else FirstPrefix(Layers(keys, n + 1, count - 1), line)
  {
    FirstPrefixAppend(OfLength(keys, n), Layers(keys, n + 1, count - 1), line);
    FirstPrefixOfLength(keys, n, line);
  }

  /** No layer matches: every key the line starts with lies outside the lengths scanned. */
  lemma {:induction false} LayersNone(keys: seq<string>, n: nat, count: nat, line: string)
    requires FirstPrefix(Layers(keys, n, count), line).None?
    ensures forall j :: 0 <= j < |keys| && StartsWith(line, keys[j]) ==> |keys[j]| < n || |keys[j]| >= n + count
    decreases count
  {
    if count > 0 {
      LayerStep(keys, n, count, line);
      LayersNone(keys, n + 1, count - 1, line);
      FirstOfLengthFacts(keys, n, line);
    }
  }

  /** A layer matches: its key is the first of the shortest matching length scanned. */
  lemma {:induction false} LayersSome(keys: seq<string>, n: nat, count: nat, line: string)
    requires FirstPrefix(Layers(keys, n, count), line).Some?
    ensures var x := FirstPrefix(Layers(keys, n, count), line).value;
      n <= |x| && FirstOfLength(keys, |x|, line) == Some(x)
      && forall j :: 0 <= j < |keys| && StartsWith(line, keys[j]) && n <= |keys[j]| ==> |x| <= |keys[j]|
    decreases count
  {
    LayerStep(keys, n, count, line);
    var r := FirstOfLength(keys, n, line);
    if r.Some? {
      FirstOfLengthIsAt(keys, n, line);
    } else {
      LayersSome(keys, n + 1, count - 1, line);
      FirstOfLengthFacts(keys, n, line);
    }
  }

  lemma {:induction false} FirstOfLengthIsAt(keys: seq<string>, n: nat, line: string)
    ensures FirstOfLength(keys, n, line).Some? ==> |FirstOfLength(keys, n, line).value| == n
  {
    if keys != [] {
      FirstOfLengthIsAt(keys[1..], n, line);
    }
  }

  /**
   * The key `call_command` scans to: none exactly when no key is a prefix
   * of the line; otherwise a key the line starts with, no longer than any
   * other such key, and the first such key of its length in insertion
   * order. No word boundary is checked.
   */
  lemma ChosenKey(keys: seq<string>, line: string)
    ensures FirstPrefix(SortByLength(keys), line).None? <==>
      forall j :: 0 <= j < |keys| ==> !StartsWith(line, keys[j])
    ensures FirstPrefix(SortByLength(keys), line).Some? ==>
      var x := FirstPrefix(SortByLength(keys), line).value;
      (exists i :: 0 <= i < |keys| && FirstAt(keys, |x|, line, i))
      && forall j :: 0 <= j < |keys| && StartsWith(line, keys[j]) ==> |x| <= |keys[j]|
  {
    var m := MaxLength(keys);
    LayersFirst(keys, 0, m + 1, line);
    var r := FirstPrefix(SortByLength(keys), line);
    if r.Some? {
      FirstOfLengthFacts(keys, |r.value|, line);
      var i :| 0 <= i < |keys| && FirstAt(keys, |r.value|, line, i);
      assert StartsWith(line, keys[i]);
    }
  }

  /** An empty command name is a prefix of every line and the shortest, so every line is unknown. */
  lemma EmptyKeyShadowsAll(keys: seq<string>, line: string)
    requires "" in keys
    ensures CallSpec(keys, line) == Unknown
  {
    var j :| 0 <= j < |keys| && keys[j] == "";
    ChosenKey(keys, line);
    assert StartsWith(line, keys[j]);
  }

  /** A line no key is a prefix of is unknown. */
  lemma NoPrefixIsUnknown(keys: seq<string>, line: string)
    requires forall j :: 0 <= j < |keys| ==> !StartsWith(line, keys[j])
    ensures CallSpec(keys, line) == Unknown
  {
    ChosenKey(keys, line);
  }

  /**
   * When `key` is shorter than every other registered name the line starts
   * with, the line dispatches that key's event with the words after the
   * key's word count, whether or not the key ends at a word boundary.
   */
  lemma ShortestPrefixDispatches(keys: seq<string>, key: string, line: string)
    requires key in keys && key != [] && StartsWith(line, key)
    requires forall j :: 0 <= j < |keys| && StartsWith(line, keys[j]) && keys[j] != key ==> |keys[j]| > |key|
    ensures CallSpec(keys, line) == Dispatch(CommandEvent(key), Tail(SplitWs(line), |SplitWs(key)|))
  {
    ChosenKey(keys, line);
    var i :| 0 <= i < |keys| && keys[i] == key;
    assert StartsWith(line, keys[i]);
  }

  /** When the key ends at a word boundary of the line, the arguments are the words of the rest of the line. */
  lemma WordBoundaryArgs(key: string, rest: string)
    requires rest == [] || IsSpace(rest[0])
    ensures Tail(SplitWs(key + rest), |SplitWs(key)|) == SplitWs(rest)
  {
    SplitWsConcat(key, rest);
  }

  /** The names of `names` as a set. */
  function NameSet(names: seq<string>): (r: set<string>)
    ensures forall n :: n in r <==> n in names
    decreases |names|
  {
    if names == [] then {}
    else
      assert names == names[..|names| - 1] + [names[|names| - 1]];
      NameSet(names[..|names| - 1]) + {names[|names| - 1]}
  }

  /** The console command table. */
  class CommandManager {
    /** `{name: display}` in insertion order. */
    var commands: seq<(string, Option<string>)>

    ghost predicate Valid()
      reads this
    {
      UniqueNames(commands)
    }

    constructor ()
      ensures Valid() && commands == []
    {
      commands := [];
    }

    /** `add_command`: sets or overwrites the display of one name. */
    method AddCommand(name: string, display: Option<string>)
      requires Valid()
      modifies this
      ensures Valid()
      ensures commands == Put(old(commands), name, display)
    {
      PutFacts(commands, name, display);
      commands := Put(commands, name, display);
    }

    /** `add_commands`: merges the entries of a tuple (no display) or a dict, in order. */
    method AddCommands(arg: CommandsArg)
      requires Valid()
      modifies this
      ensures Valid()
      ensures commands == PutAll(old(commands), Entries(arg))
    {
      var es := Entries(arg);
      var i := 0;
      while i < |es|
        invariant 0 <= i <= |es|
        invariant commands == PutAll(old(commands), es[..i])
        invariant UniqueNames(commands)
      {
        assert es[..i + 1][..i] == es[..i];
        PutFacts(commands, es[i].0, es[i].1);
        commands := Put(commands, es[i].0, es[i].1);
        i := i + 1;
      }
      assert es[..i] == es;
    }

    /** `remove_command`: pops each given name, ignoring absent ones. */
    method RemoveCommand(names: seq<string>)
      requires Valid()
      modifies this
      ensures Valid()
      ensures commands == Without(old(commands), NameSet(names))
    {
      WithoutAbsent(commands, {});
      var i := 0;
      while i < |names|
        invariant 0 <= i <= |names|
        invariant commands == Without(old(commands), NameSet(names[..i]))
        invariant UniqueNames(commands)
      {
        assert names[..i + 1][..i] == names[..i];
        PopIsWithout(commands, names[i]);
        WithoutTwice(old(commands), NameSet(names[..i]), {names[i]});
        WithoutUnique(commands, {names[i]});
        commands := Pop(commands, names[i]);
        i := i + 1;
      }
      assert names[..i] == names;
    }

    /** `call_command`: scans the names shortest first and dispatches the first one the line starts with. */
    method CallCommand(line: string) returns (r: CallOutcome)
      ensures r == CallSpec(Keys(commands), line)
    {
      var split := SplitWs(line);
      var base := "";
      var sorted := SortByLength(Keys(commands));
      var i := 0;
      while i < |sorted|
        invariant 0 <= i <= |sorted|
        invariant FirstPrefix(sorted, line) == FirstPrefix(sorted[i..], line)
        invariant base == ""
      {
        if StartsWith(line, sorted[i]) {
          base := sorted[i];
          break;
        }
        assert sorted[i..][1..] == sorted[i + 1..];
        i := i + 1;
      }
      if base == "" {
        return Unknown;
      }
      r := Dispatch(CommandEvent(base), Tail(split, |SplitWs(base)|));
    }
  }
}
