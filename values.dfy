/**
 * The Python values the relay passes around: configuration data, JSON
 * payloads, event arguments. Dictionaries keep insertion order, as Python's
 * do, and are association lists without repeated keys.
 */
module PyValues {
  import opened Wrappers

  datatype Value =
    | NoneV
    | BoolV(b: bool)
    | IntV(i: int)
    | FloatV(r: real)
    | StrV(s: string)
    | ListV(items: seq<Value>)
    | DictV(entries: seq<(Value, Value)>)
    /** A member of an `Enum` class, named by the class and the member. */
    | EnumV(enumName: string, member: string)
    /** The `MISSING` sentinel of `server/utils/utils.py`. */
    | MissingV
    /** `...`, which `execute_command` returns when there is no RCON client. */
    | EllipsisV
    /**
     * An object the model tracks by reference elsewhere, named by its class
     * and a key: a session `Context` is `ObjectV("Context", sid)`.
     */
    | ObjectV(cls: string, key: string)

  /** The exception kinds the modelled code raises or catches. */
  datatype PyError =
    | TypeError
    | ValueError
    | KeyError
    | AttributeError
    | CancelledError
    | LoginError
    | ExtensionAlreadyLoaded
    | ExtensionNotFound
    | ExtensionPluginNotFound
    | NoEntryPointError
    | ExtensionError
    | EmptyContent
    | UnicodeDecodeError
    | IndexError
    /** Anything a user-supplied callback may raise. */
    | OtherError(name: string)

  /** `bool(v)` */
  predicate Truthy(v: Value)
  {
    match v
    case NoneV => false
    case BoolV(b) => b
    case IntV(i) => i != 0
    case FloatV(r) => r != 0.0
    case StrV(s) => s != ""
    case ListV(items) => items != []
    case DictV(entries) => entries != []
    case EnumV(_, _) => true
    case MissingV => false
    case EllipsisV => true
    case ObjectV(_, _) => true
  }

  predicate IsNumber(v: Value)
  {
    v.BoolV? || v.IntV? || v.FloatV?
  }

  /** The numeric value of a `bool`, `int` or `float`: `True` is 1. */
  function NumberValue(v: Value): real
    requires IsNumber(v)
  {
    match v
    case BoolV(b) => if b then 1.0 else 0.0
    case IntV(i) => i as real
    case FloatV(r) => r
  }

  /**
   * `a == b` for the scalar values that `Literal[...]` and dictionary keys
   * hold: numbers compare by value across `bool`, `int` and `float`, and
   * `MISSING` equals nothing, itself included. Containers compare
   * structurally.
   */
  predicate PyEq(a: Value, b: Value)
  {
    if a.MissingV? || b.MissingV? then false
    else if IsNumber(a) && IsNumber(b) then NumberValue(a) == NumberValue(b)
    else if IsNumber(a) || IsNumber(b) then false
    else a == b
  }

  /** `MISSING == v` and `v == MISSING` are false for every `v`, and `MISSING` is falsy. */
  lemma MissingNeverEqual(v: Value)
    ensures !PyEq(MissingV, v) && !PyEq(v, MissingV) && !Truthy(MissingV)
  {
  }

  /** `PyEq` is symmetric. */
  lemma PyEqSymmetric(a: Value, b: Value)
    ensures PyEq(a, b) == PyEq(b, a)
  {
  }

  // ----- dictionaries -----

  /** The position of `key` among the keys of `entries`. */
  function FindKey(entries: seq<(Value, Value)>, key: Value): (r: Option<nat>)
    ensures r.Some? ==> r.value < |entries| && PyEq(entries[r.value].0, key)
    ensures r.Some? ==> forall j :: 0 <= j < r.value ==> !PyEq(entries[j].0, key)
    ensures r.None? ==> forall j :: 0 <= j < |entries| ==> !PyEq(entries[j].0, key)
  {
    if entries == [] then None
    else if PyEq(entries[0].0, key) then Some(0)
    else match FindKey(entries[1..], key)
      case None => None
      case Some(j) => Some(j + 1)
  }

  /** The first key equal to `key` is at `j`. */
  lemma FindKeyAt(entries: seq<(Value, Value)>, key: Value, j: nat)
    requires j < |entries| && PyEq(entries[j].0, key)
    requires forall k :: 0 <= k < j ==> !PyEq(entries[k].0, key)
    ensures FindKey(entries, key) == Some(j)
  {
  }

  /** A `str` key found at `j`, with no equal key before it. */
  lemma GetAt(entries: seq<(Value, Value)>, name: string, j: nat)
    requires j < |entries| && entries[j].0 == StrV(name)
    requires forall k :: 0 <= k < j ==> entries[k].0 != StrV(name)
    ensures DictGet(entries, StrV(name)) == Some(entries[j].1)
  {
    FindKeyAt(entries, StrV(name), j);
  }

  /** `d.get(key)`: `None` stands for the missing key. */
  function DictGet(entries: seq<(Value, Value)>, key: Value): (r: Option<Value>)
    ensures r.Some? <==> exists j :: 0 <= j < |entries| && PyEq(entries[j].0, key)
  {
    match FindKey(entries, key)
    case None => None
    case Some(j) => Some(entries[j].1)
  }

  /**
   * `d[key] = value`: an equal key keeps its place (and its original key
   * object) and takes the new value; a new key goes last.
   */
  function DictSet(entries: seq<(Value, Value)>, key: Value, value: Value): (r: seq<(Value, Value)>)
    ensures |r| == |entries| || |r| == |entries| + 1
  {
    match FindKey(entries, key)
    case None => entries + [(key, value)]
    case Some(j) => entries[j := (entries[j].0, value)]
  }

  /** Setting a `str` key no entry has appends it. */
  lemma DictSetNew(entries: seq<(Value, Value)>, name: string, value: Value)
    requires forall k :: 0 <= k < |entries| ==> entries[k].0.StrV? && entries[k].0.s != name
    ensures DictSet(entries, StrV(name), value) == entries + [(StrV(name), value)]
  {
    assert FindKey(entries, StrV(name)).None?;
  }

  /** A `str`-keyed lookup, the common case of `d.get("name")`. */
  function Get(v: Value, name: string): Option<Value>
  {
    if v.DictV? then DictGet(v.entries, StrV(name)) else None
  }

  lemma {:induction false} FindKeySameKeys(a: seq<(Value, Value)>, b: seq<(Value, Value)>, key: Value)
    requires |a| == |b| && forall i :: 0 <= i < |a| ==> a[i].0 == b[i].0
    ensures FindKey(a, key) == FindKey(b, key)
  {
    if a != [] {
      FindKeySameKeys(a[1..], b[1..], key);
    }
  }

  /** After `d[key] = value`, `d.get(key)` is `value`. */
  lemma DictSetThenGet(entries: seq<(Value, Value)>, key: Value, value: Value)
    requires !key.MissingV?
    ensures DictGet(DictSet(entries, key, value), key) == Some(value)
  {
    assert PyEq(key, key);
    match FindKey(entries, key)
    case None =>
      var r := entries + [(key, value)];
      assert r[|entries|] == (key, value);
    case Some(j) =>
      FindKeySameKeys(entries, entries[j := (entries[j].0, value)], key);
  }
}
