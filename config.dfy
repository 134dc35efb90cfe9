/**
 * The type-directed configuration validator of `config.py`: `parse_type`
 * checks (and for `float` converts) a value against a type hint, and
 * `ConfigData` fills its hinted fields from keyword arguments or class
 * defaults through it.
 */
module Config {
  import opened Wrappers
  import opened PyStr
  import opened PyValues
  import opened StrDict

  /** The type hints `parse_type` distinguishes. */
  datatype TypeForm =
    | AnyT
    /** The members of `_BASIC_TYPES`, as bare classes. */
    | NoneT | BoolT | IntT | FloatT | StrT | ListT | DictT
    | UnionT(alts: seq<TypeForm>)
    | ListOf(elem: TypeForm)
    | DictOf(key: TypeForm, value: TypeForm)
    /**
     * An `Enum` class: its member names and the keys of its class
     * namespace (`cls.__dict__`), which hold the members and also
     * attributes such as `__module__`.
     */
    | EnumT(name: string, members: seq<string>, namespace: seq<string>)
    | LiteralT(values: seq<Value>)
    /** Any other hint, such as `tuple[int]` or a plain class. */
    | Unsupported

  predicate IsBasic(t: TypeForm)
  {
    t.NoneT? || t.BoolT? || t.IntT? || t.FloatT? || t.StrT? || t.ListT? || t.DictT?
  }

  /** `isinstance(data, cls)` for a basic class; `bool` is a subclass of `int`. */
  predicate IsInstance(data: Value, t: TypeForm)
    requires IsBasic(t)
  {
    match t
    case NoneT => data.NoneV?
    case BoolT => data.BoolV?
    case IntT => data.BoolV? || data.IntV?
    case FloatT => data.FloatV?
    case StrT => data.StrV?
    case ListT => data.ListV?
    case DictT => data.DictV?
  }

  /** The errors a `Union` alternative may raise and still let the next one be tried. */
  predicate Caught(e: PyError)
  {
    e == TypeError || e == ValueError
  }

  /**
   * `parse_type(data, cls)`: only `float` converts; every other hint that
   * admits the value hands it back as it came.
   */
  function ParseType(data: Value, t: TypeForm): (r: Result<Value, PyError>)
    ensures r.Ok? && (t.AnyT? || t.LiteralT? || (IsBasic(t) && !t.FloatT?)) ==> r.value == data
    ensures r.Ok? && t.ListOf? ==> data.ListV? && r.value.ListV? && |r.value.items| == |data.items|
    ensures t.Unsupported? || (t.UnionT? && t.alts == []) ==> r == Err(TypeError)
    decreases t, 1, 0
  {
    match t
    case AnyT => Ok(data)
    case UnionT(alts) => ParseUnion(data, t, 0)
    case ListOf(_) =>
      if data.ListV? then
        match ParseList(data.items, t)
        case Ok(items) => Ok(ListV(items))
        case Err(e) => Err(e)
      else Err(TypeError)
    case DictOf(_, _) =>
      if data.DictV? then
        match ParseDict(data.entries, t, [])
        case Ok(entries) => Ok(DictV(entries))
        case Err(e) => Err(e)
      else Err(TypeError)
    case EnumT(name, members, namespace) =>
      if data.StrV? then
        if data.s in namespace then
          if data.s in members then Ok(EnumV(name, data.s)) else Err(KeyError)
        else Err(ValueError)
      else Err(TypeError)
    case LiteralT(values) =>
      // the mismatch message reads `__name__` of each literal, which values lack
      if exists i :: 0 <= i < |values| && PyEq(data, values[i]) then Ok(data) else Err(AttributeError)
    case Unsupported => Err(TypeError)
    case _ => ParseBasic(data, t)
  }

  /** A class of `_BASIC_TYPES`: an instance passes, an `int` (or `bool`) converts to `float`. */
  function ParseBasic(data: Value, t: TypeForm): (r: Result<Value, PyError>)
    requires IsBasic(t)
    ensures r.Ok? ==> IsInstance(r.value, t)
    ensures r.Ok? && !t.FloatT? ==> r.value == data
    ensures r.Err? ==> r.error == TypeError
  {
    if IsInstance(data, t) then Ok(data)
    else if t.FloatT? && (data.BoolV? || data.IntV?) then Ok(FloatV(NumberValue(data)))
    else Err(TypeError)
  }

  /** The alternatives of a `Union` from the `i`-th on: the first success wins. */
  function ParseUnion(data: Value, t: TypeForm, i: nat): (r: Result<Value, PyError>)
    requires t.UnionT? && i <= |t.alts|
    ensures r.Err? && Caught(r.error) ==> r.error == TypeError
    decreases t, 0, |t.alts| - i
  {
    if i == |t.alts| then Err(TypeError)
    else match ParseType(data, t.alts[i])
      case Ok(v) => Ok(v)
      case Err(e) => if Caught(e) then ParseUnion(data, t, i + 1) else Err(e)
  }

  /** `list(map(lambda x: parse_type(x, arg), data))`: the first failure propagates. */
  function ParseList(items: seq<Value>, t: TypeForm): (r: Result<seq<Value>, PyError>)
    requires t.ListOf?
    ensures r.Ok? ==> |r.value| == |items|
    decreases t, 0, |items|
  {
    if items == [] then Ok([])
    else match ParseType(items[0], t.elem)
      case Err(e) => Err(e)
      case Ok(v) =>
        match ParseList(items[1..], t)
        case Err(e) => Err(e)
        case Ok(rest) => Ok([v] + rest)
  }

  /**
   * The dict comprehension: each key, then its value, is converted in
   * insertion order and stored into `acc`; the first failure propagates.
   */
  function ParseDict(entries: seq<(Value, Value)>, t: TypeForm, acc: seq<(Value, Value)>)
    : (r: Result<seq<(Value, Value)>, PyError>)
    requires t.DictOf?
    ensures r.Ok? ==> |acc| <= |r.value| <= |acc| + |entries|
    decreases t, 0, |entries|
  {
    if entries == [] then Ok(acc)
    else match ParseType(entries[0].0, t.key)
      case Err(e) => Err(e)
      case Ok(k) =>
        match ParseType(entries[0].1, t.value)
        case Err(e) => Err(e)
        case Ok(v) => ParseDict(entries[1..], t, DictSet(acc, k, v))
  }

  // ----- an independent description of what a hint admits -----

  /** `v` is a value of the hint `t`. */
  predicate Conforms(v: Value, t: TypeForm)
    decreases t, v
  {
    match t
    case AnyT => true
    case UnionT(alts) => exists i :: 0 <= i < |alts| && Conforms(v, alts[i])
    case ListOf(e) => v.ListV? && forall i :: 0 <= i < |v.items| ==> Conforms(v.items[i], e)
    case DictOf(k, w) =>
      v.DictV? && forall i :: 0 <= i < |v.entries| ==> Conforms(v.entries[i].0, k) && Conforms(v.entries[i].1, w)
    case EnumT(name, members, _) => v.EnumV? && v.enumName == name && v.member in members
    case LiteralT(values) => exists i :: 0 <= i < |values| && PyEq(v, values[i])
    case Unsupported => false
    case _ => IsInstance(v, t)
  }

  /** Whatever `parse_type` returns is a value of the hint. */
  lemma {:induction false} ParseTypeSound(data: Value, t: TypeForm)
    ensures ParseType(data, t).Ok? ==> Conforms(ParseType(data, t).value, t)
    decreases t, 1, 0
  {
    match t
    case UnionT(alts) => ParseUnionSound(data, t, 0);
    case ListOf(e) =>
      if data.ListV? { ParseListSound(data.items, t); }
    case DictOf(_, _) =>
      if data.DictV? {
        var empty: seq<(Value, Value)> := [];
        ParseDictSound(data.entries, t, empty);
        var r := ParseDict(data.entries, t, empty);
        if r.Ok? {
          assert EntriesConform(r.value, t);
          assert ParseType(data, t) == Ok(DictV(r.value));
        }
      }
    case _ =>
  }

  lemma {:induction false} ParseUnionSound(data: Value, t: TypeForm, i: nat)
    requires t.UnionT? && i <= |t.alts|
    ensures ParseUnion(data, t, i).Ok? ==> Conforms(ParseUnion(data, t, i).value, t)
    decreases t, 0, |t.alts| - i
  {
    if i < |t.alts| {
      ParseTypeSound(data, t.alts[i]);
      ParseUnionSound(data, t, i + 1);
    }
  }

  lemma {:induction false} ParseListSound(items: seq<Value>, t: TypeForm)
    requires t.ListOf?
    ensures ParseList(items, t).Ok? ==>
      forall j :: 0 <= j < |ParseList(items, t).value| ==> Conforms(ParseList(items, t).value[j], t.elem)
    decreases t, 0, |items|
  {
    if items != [] {
      ParseTypeSound(items[0], t.elem);
      ParseListSound(items[1..], t);
    }
  }

  /** Every key of `entries` conforms to the key hint of `t`, every value to its value hint. */
  predicate EntriesConform(entries: seq<(Value, Value)>, t: TypeForm)
    requires t.DictOf?
  {
    forall j :: 0 <= j < |entries| ==> Conforms(entries[j].0, t.key) && Conforms(entries[j].1, t.value)
  }

  lemma DictSetConforms(acc: seq<(Value, Value)>, k: Value, v: Value, t: TypeForm)
    requires t.DictOf? && EntriesConform(acc, t)
    requires Conforms(k, t.key) && Conforms(v, t.value)
    ensures EntriesConform(DictSet(acc, k, v), t)
  {
    var r := DictSet(acc, k, v);
    match FindKey(acc, k)
    case None =>
      assert forall j :: 0 <= j < |acc| ==> r[j] == acc[j];
    case Some(i) =>
  }

  lemma {:induction false} ParseDictSound(entries: seq<(Value, Value)>, t: TypeForm, acc: seq<(Value, Value)>)
    requires t.DictOf? && EntriesConform(acc, t)
    ensures ParseDict(entries, t, acc).Ok? ==> EntriesConform(ParseDict(entries, t, acc).value, t)
    decreases t, 0, |entries|
  {
    if entries != [] {
      ParseTypeSound(entries[0].0, t.key);
      ParseTypeSound(entries[0].1, t.value);
      var k := ParseType(entries[0].0, t.key);
      var v := ParseType(entries[0].1, t.value);
      if k.Ok? && v.Ok? {
        DictSetConforms(acc, k.value, v.value, t);
        ParseDictSound(entries[1..], t, DictSet(acc, k.value, v.value));
      }
    }
  }

  /**
   * `list[T]` converts element by element: it succeeds exactly when every
   * element does, keeps the length and order, and each element of the
   * result is that element converted.
   */
  lemma {:induction false} ParseListElementwise(items: seq<Value>, t: TypeForm)
    requires t.ListOf?
    ensures ParseList(items, t).Ok? <==> forall j :: 0 <= j < |items| ==> ParseType(items[j], t.elem).Ok?
    ensures ParseList(items, t).Ok? ==>
      |ParseList(items, t).value| == |items|
      && forall j :: 0 <= j < |items| ==> ParseType(items[j], t.elem) == Ok(ParseList(items, t).value[j])
    decreases |items|
  {
    if items != [] {
      ParseListElementwise(items[1..], t);
      assert forall j :: 1 <= j < |items| ==> items[j] == items[1..][j - 1];
    }
  }

  /** The `j`-th alternative raises an error the `Union` catches, so the next one is tried. */
  predicate SkippedAlt(data: Value, t: TypeForm, j: nat)
    requires t.UnionT? && j < |t.alts|
  {
    ParseType(data, t.alts[j]).Err? && Caught(ParseType(data, t.alts[j]).error)
  }

  /** The `k`-th alternative succeeds and every one from the `i`-th before it is skipped. */
  predicate FirstOkAlt(data: Value, t: TypeForm, i: nat, k: nat)
    requires t.UnionT?
  {
    i <= k < |t.alts| && ParseType(data, t.alts[k]).Ok? && forall j :: i <= j < k ==> SkippedAlt(data, t, j)
  }

  /** A `Union` returns the result of its first alternative that does not raise a caught error. */
  lemma ParseUnionFirstSuccess(data: Value, t: TypeForm, i: nat)
    requires t.UnionT? && i <= |t.alts|
    ensures ParseUnion(data, t, i).Ok? <==> exists k :: FirstOkAlt(data, t, i, k)
    ensures ParseUnion(data, t, i).Ok? ==>
      exists k :: i <= k < |t.alts| && ParseType(data, t.alts[k]) == ParseUnion(data, t, i)
  {
    if ParseUnion(data, t, i).Ok? {
      var k := UnionWitness(data, t, i);
    }
    if exists k :: FirstOkAlt(data, t, i, k) {
      var k :| FirstOkAlt(data, t, i, k);
      UnionFromFirst(data, t, i, k);
    }
  }

  /** A successful `Union` has a first succeeding alternative, whose result it is. */
  lemma {:induction false} UnionWitness(data: Value, t: TypeForm, i: nat) returns (k: nat)
    requires t.UnionT? && i <= |t.alts| && ParseUnion(data, t, i).Ok?
    ensures FirstOkAlt(data, t, i, k) && ParseType(data, t.alts[k]) == ParseUnion(data, t, i)
    decreases |t.alts| - i
  {
    if ParseType(data, t.alts[i]).Ok? {
      k := i;
    } else {
      k := UnionWitness(data, t, i + 1);
      assert SkippedAlt(data, t, i);
    }
  }

  /** When the `k`-th alternative is the first to succeed, the `Union` gives its result. */
  lemma {:induction false} UnionFromFirst(data: Value, t: TypeForm, i: nat, k: nat)
    requires t.UnionT? && i <= |t.alts| && FirstOkAlt(data, t, i, k)
    ensures ParseUnion(data, t, i) == ParseType(data, t.alts[k])
    decreases k - i
  {
    if i < k {
      assert SkippedAlt(data, t, i);
      UnionFromFirst(data, t, i + 1, k);
    }
  }

  /**
   * A `str` that names a non-member entry of the enum's class namespace
   * makes the enum raise `KeyError`, which a `Union` does not catch: the
   * later `str` alternative is never tried.
   */
  lemma EnumNamespaceKeyErrorEscapesUnion()
    ensures var color := EnumT("Color", ["RED"], ["RED", "__module__"]);
      ParseType(StrV("__module__"), UnionT([color, StrT])) == Err(KeyError)
      && ParseType(StrV("__module__"), StrT) == Ok(StrV("__module__"))
  {
    var color := EnumT("Color", ["RED"], ["RED", "__module__"]);
    var t := UnionT([color, StrT]);
    assert ParseType(StrV("__module__"), color) == Err(KeyError);
    assert ParseUnion(StrV("__module__"), t, 0) == Err(KeyError);
  }

  /**
   * A `Literal` that does not match raises `AttributeError` while building
   * its message, and a `Union` does not catch that: `"yaml"` fails against
   * `Union[Literal["json"], Literal["yaml"]]` though its second alternative
   * accepts it.
   */
  lemma LiteralMismatchEscapesUnion()
    ensures var json, yaml := LiteralT([StrV("json")]), LiteralT([StrV("yaml")]);
      ParseType(StrV("yaml"), UnionT([json, yaml])) == Err(AttributeError)
      && ParseType(StrV("yaml"), yaml) == Ok(StrV("yaml"))
  {
    var json := LiteralT([StrV("json")]);
    var t := UnionT([json, LiteralT([StrV("yaml")])]);
    assert !PyEq(StrV("yaml"), StrV("json"));
    assert ParseType(StrV("yaml"), json) == Err(AttributeError);
    assert ParseUnion(StrV("yaml"), t, 0) == Err(AttributeError);
    assert PyEq(StrV("yaml"), LiteralT([StrV("yaml")]).values[0]);
  }

  /** `int` converts to `float`; `bool` is accepted by `int` and converts to `float` too. */
  lemma NumericConversions(i: int, b: bool)
    ensures ParseType(IntV(i), FloatT) == Ok(FloatV(i as real))
    ensures ParseType(BoolV(b), IntT) == Ok(BoolV(b))
    ensures ParseType(BoolV(b), FloatT) == Ok(FloatV(if b then 1.0 else 0.0))
    ensures ParseType(FloatV(i as real), IntT) == Err(TypeError)
  {
  }

  // ----- ConfigData -----

  /** The hinted fields that are not private (`get_hint_type`), in hint order. */
  function PublicHints(hints: seq<(string, TypeForm)>): (r: seq<(string, TypeForm)>)
    ensures forall j :: 0 <= j < |r| ==> !StartsWith(r[j].0, "_")
    ensures forall j :: 0 <= j < |hints| && !StartsWith(hints[j].0, "_") ==> hints[j] in r
    ensures forall x :: x in r ==> x in hints
    ensures UniqueNames(hints) ==> UniqueNames(r)
  {
    if hints == [] then []
    else if StartsWith(hints[0].0, "_") then PublicHints(hints[1..])
    else
      var rest := PublicHints(hints[1..]);
      assert UniqueNames(hints) ==> forall j :: 0 <= j < |rest| ==> rest[j].0 != hints[0].0 by {
        if UniqueNames(hints) {
          forall j | 0 <= j < |rest| ensures rest[j].0 != hints[0].0 {
            assert rest[j] in hints[1..];
            var k :| 0 <= k < |hints[1..]| && hints[1..][k] == rest[j];
            assert hints[k + 1] == rest[j];
          }
        }
      }
      assert UniqueNames(hints) ==> UniqueNames(hints[1..]) by {
        if UniqueNames(hints) {
          forall j, k | 0 <= j < k < |hints[1..]| ensures hints[1..][j].0 != hints[1..][k].0 {
            assert hints[1..][j] == hints[j + 1] && hints[1..][k] == hints[k + 1];
          }
        }
      }
      [hints[0]] + rest
  }

  /** The keyword arguments that do not start with `_`; the first copy of a name wins. */
  function PublicKwargs(kwargs: seq<(string, Value)>): (r: map<string, Value>)
    ensures forall k :: k in r <==> HasName(kwargs, k) && !StartsWith(k, "_")
  {
    if kwargs == [] then map[]
    else
      var rest := PublicKwargs(kwargs[1..]);
      assert forall k :: HasName(kwargs, k) <==> k == kwargs[0].0 || HasName(kwargs[1..], k) by {
        forall k ensures HasName(kwargs, k) <==> k == kwargs[0].0 || HasName(kwargs[1..], k) {
          if HasName(kwargs[1..], k) {
            var j :| 0 <= j < |kwargs[1..]| && kwargs[1..][j].0 == k;
            assert kwargs[j + 1].0 == k;
          }
          if HasName(kwargs, k) && k != kwargs[0].0 {
            var j :| 0 <= j < |kwargs| && kwargs[j].0 == k;
            assert kwargs[1..][j - 1].0 == k;
          }
        }
      }
      if StartsWith(kwargs[0].0, "_") then rest else rest[kwargs[0].0 := kwargs[0].1]
  }

  /** An attribute lookup: the instance attributes first, then the class defaults. */
  function Lookup(attrs: map<string, Value>, defaults: map<string, Value>, name: string): (r: Option<Value>)
    ensures r.Some? <==> name in attrs || name in defaults
  {
    if name in attrs then Some(attrs[name])
    else if name in defaults then Some(defaults[name])
    else None
  }

  /** What `_set_attr` has after some hints: the kwargs not yet popped and the instance attributes. */
  datatype SetState = SetState(remaining: map<string, Value>, attrs: map<string, Value>)

  /**
   * `_set_attr` over the hints `ph`, from attributes `a0` and public kwargs
   * `kw`: each hint reads its current value, pops its kwarg and stores the
   * parsed value; the first failure is the result.
   */
  function SetAttrRun(a0: map<string, Value>, defaults: map<string, Value>, kw: map<string, Value>,
                      ph: seq<(string, TypeForm)>): Result<SetState, PyError>
    decreases |ph|
  {
    if ph == [] then Ok(SetState(kw, a0))
    else match SetAttrRun(a0, defaults, kw, ph[..|ph| - 1])
      case Err(e) => Err(e)
      case Ok(st) => SetAttrStep(st, defaults, ph[|ph| - 1])
  }

  /** One hint of `_set_attr`. */
  function SetAttrStep(st: SetState, defaults: map<string, Value>, hint: (string, TypeForm)): Result<SetState, PyError>
  {
    var name := hint.0;
    match Lookup(st.attrs, defaults, name)
    case None => Err(AttributeError)
    case Some(current) =>
      var value := if name in st.remaining then st.remaining[name] else current;
      match ParseType(value, hint.1)
      case Err(e) => Err(e)
      case Ok(v) => Ok(SetState(st.remaining - {name}, st.attrs[name := v]))
  }

  /**
   * `_set_attr` has stored field `n` with hint `h`: the field had a value
   * in `a0` or the defaults, and `attrs` holds the conversion of the kwarg,
   * or of that value when no kwarg names it.
   */
  predicate Stored(a0: map<string, Value>, defaults: map<string, Value>, kw: map<string, Value>,
                   attrs: map<string, Value>, n: string, h: TypeForm)
  {
    Lookup(a0, defaults, n).Some? && n in attrs
    && ParseType(if n in kw then kw[n] else Lookup(a0, defaults, n).value, h) == Ok(attrs[n])
  }

  /** A completed run leaves every field no hint names as it was. */
  lemma {:induction false} RunFrame(a0: map<string, Value>, defaults: map<string, Value>, kw: map<string, Value>,
                                    ph: seq<(string, TypeForm)>)
    requires SetAttrRun(a0, defaults, kw, ph).Ok?
    ensures var at := SetAttrRun(a0, defaults, kw, ph).value.attrs;
      forall k :: !HasName(ph, k) ==> (k in at <==> k in a0) && (k in at ==> at[k] == a0[k])
    decreases |ph|
  {
    if ph != [] {
      var init := ph[..|ph| - 1];
      RunFrame(a0, defaults, kw, init);
      HasNamePrefix(ph, |ph| - 1);
      assert ph[..|ph| - 1 + 1] == ph;
    }
  }

  /** A completed run has popped exactly the kwargs some hint names. */
  lemma {:induction false} RunRemaining(a0: map<string, Value>, defaults: map<string, Value>, kw: map<string, Value>,
                                        ph: seq<(string, TypeForm)>)
    requires SetAttrRun(a0, defaults, kw, ph).Ok?
    ensures var rem := SetAttrRun(a0, defaults, kw, ph).value.remaining;
      (forall k :: k in rem <==> k in kw && !HasName(ph, k)) && forall k :: k in rem ==> rem[k] == kw[k]
    decreases |ph|
  {
    if ph != [] {
      var init := ph[..|ph| - 1];
      RunRemaining(a0, defaults, kw, init);
      HasNamePrefix(ph, |ph| - 1);
      assert ph[..|ph| - 1 + 1] == ph;
    }
  }

  /** With distinct names, a completed run has stored every hinted field. */
  lemma {:induction false} RunStored(a0: map<string, Value>, defaults: map<string, Value>, kw: map<string, Value>,
                                     ph: seq<(string, TypeForm)>)
    requires UniqueNames(ph) && SetAttrRun(a0, defaults, kw, ph).Ok?
    ensures forall j :: 0 <= j < |ph| ==> Stored(a0, defaults, kw, SetAttrRun(a0, defaults, kw, ph).value.attrs, ph[j].0, ph[j].1)
    decreases |ph|
  {
    if ph != [] {
      var i := |ph| - 1;
      var init := ph[..i];
      var name := ph[i].0;
      var st := SetAttrRun(a0, defaults, kw, init).value;
      var at := SetAttrRun(a0, defaults, kw, ph).value.attrs;
      assert UniqueNames(init) by {
        forall j, k | 0 <= j < k < |init|
          ensures init[j].0 != init[k].0
        {
          assert init[j] == ph[j] && init[k] == ph[k];
        }
      }
      RunStored(a0, defaults, kw, init);
      HasNameUnique(ph, i);
      RunFrame(a0, defaults, kw, init);
      RunRemaining(a0, defaults, kw, init);
      assert Lookup(st.attrs, defaults, name) == Lookup(a0, defaults, name);
      assert (name in st.remaining) == (name in kw);
      assert at == st.attrs[name := at[name]];
      forall j | 0 <= j < |ph|
        ensures Stored(a0, defaults, kw, at, ph[j].0, ph[j].1)
      {
        if j < i {
          assert init[j] == ph[j];
          assert ph[j].0 != name;
          StoredKept(a0, defaults, kw, st.attrs, ph[j].0, ph[j].1, name, at[name]);
        }
      }
    }
  }

  /** Once a hint fails, the run's result is that failure. */
  lemma {:induction false} RunErrSticks(a0: map<string, Value>, defaults: map<string, Value>, kw: map<string, Value>,
                                        ph: seq<(string, TypeForm)>, i: nat)
    requires i <= |ph| && SetAttrRun(a0, defaults, kw, ph[..i]).Err?
    ensures SetAttrRun(a0, defaults, kw, ph) == SetAttrRun(a0, defaults, kw, ph[..i])
    decreases |ph|
  {
    if i == |ph| {
      assert ph[..i] == ph;
    } else {
      var init := ph[..|ph| - 1];
      assert init[..i] == ph[..i];
      RunErrSticks(a0, defaults, kw, init, i);
    }
  }

  /** A run stopped at the `i`-th hint has changed no field that no hint names. */
  lemma Untouched(a0: map<string, Value>, defaults: map<string, Value>, kw: map<string, Value>,
                  ph: seq<(string, TypeForm)>, i: nat)
    requires i <= |ph| && SetAttrRun(a0, defaults, kw, ph[..i]).Ok?
    ensures var at := SetAttrRun(a0, defaults, kw, ph[..i]).value.attrs;
      forall k :: !HasName(ph, k) ==> (k in at <==> k in a0) && (k in at ==> at[k] == a0[k])
  {
    RunFrame(a0, defaults, kw, ph[..i]);
    if i < |ph| {
      HasNamePrefix(ph, i);
    } else {
      assert ph[..i] == ph;
    }
  }

  /**
   * The loop of `_set_attr` over the public hints `ph`: `run` is what it
   * ends with, and `at` the instance attributes it leaves behind, also
   * when a hint fails part way.
   */
  method ApplyHints(a0: map<string, Value>, defaults: map<string, Value>, kw: map<string, Value>,
                    ph: seq<(string, TypeForm)>)
    returns (run: Result<SetState, PyError>, at: map<string, Value>)
    ensures run == SetAttrRun(a0, defaults, kw, ph)
    ensures run.Ok? ==> at == run.value.attrs
    ensures forall k :: !HasName(ph, k) ==> (k in at <==> k in a0) && (k in at ==> at[k] == a0[k])
  {
    var remaining := kw;
    at := a0;
    var i := 0;
    while i < |ph|
      invariant 0 <= i <= |ph|
      invariant SetAttrRun(a0, defaults, kw, ph[..i]) == Ok(SetState(remaining, at))
    {
      var name := ph[i].0;
      RunNext(a0, defaults, kw, ph, i);
      var current := Lookup(at, defaults, name);
      if current.None? {
        FailAt(a0, defaults, kw, ph, i);
        return Err(AttributeError), at;
      }
      var value := if name in remaining then remaining[name] else current.value;
      remaining := remaining - {name};
      var parsed := ParseType(value, ph[i].1);
      if parsed.Err? {
        FailAt(a0, defaults, kw, ph, i);
        return Err(parsed.error), at;
      }
      at := at[name := parsed.value];
      i := i + 1;
    }
    assert ph[..i] == ph;
    RunFrame(a0, defaults, kw, ph);
    return Ok(SetState(remaining, at)), at;
  }

  /** The run over one more hint is one more step. */
  lemma RunNext(a0: map<string, Value>, defaults: map<string, Value>, kw: map<string, Value>,
                ph: seq<(string, TypeForm)>, i: nat)
    requires i < |ph| && SetAttrRun(a0, defaults, kw, ph[..i]).Ok?
    ensures SetAttrRun(a0, defaults, kw, ph[..i + 1]) == SetAttrStep(SetAttrRun(a0, defaults, kw, ph[..i]).value, defaults, ph[i])
  {
    assert ph[..i + 1][..i] == ph[..i] && ph[..i + 1][i] == ph[i];
  }

  /** A hint that fails ends the run with its error, the fields no hint names untouched. */
  lemma FailAt(a0: map<string, Value>, defaults: map<string, Value>, kw: map<string, Value>,
               ph: seq<(string, TypeForm)>, i: nat)
    requires i < |ph| && SetAttrRun(a0, defaults, kw, ph[..i]).Ok? && SetAttrRun(a0, defaults, kw, ph[..i + 1]).Err?
    ensures SetAttrRun(a0, defaults, kw, ph) == SetAttrRun(a0, defaults, kw, ph[..i + 1])
    ensures var at := SetAttrRun(a0, defaults, kw, ph[..i]).value.attrs;
      forall k :: !HasName(ph, k) ==> (k in at <==> k in a0) && (k in at ==> at[k] == a0[k])
  {
    Untouched(a0, defaults, kw, ph, i);
    RunErrSticks(a0, defaults, kw, ph, i + 1);
  }

  /** Storing another field leaves a stored field as it was. */
  lemma StoredKept(a0: map<string, Value>, defaults: map<string, Value>, kw: map<string, Value>,
                   attrs: map<string, Value>, n: string, h: TypeForm, name: string, v: Value)
    requires n != name && Stored(a0, defaults, kw, attrs, n, h)
    ensures Stored(a0, defaults, kw, attrs[name := v], n, h)
  {
  }

  /**
   * A configuration object: the class's type hints (in the order
   * `get_type_hints` lists them) and class-level defaults, and the
   * instance's own attributes.
   */
  class ConfigData {
    const hints: seq<(string, TypeForm)>
    const defaults: map<string, Value>
    var attrs: map<string, Value>

    /**
     * `getattr(self, name)`: the instance attribute, else the class
     * default; `None` stands for `AttributeError`.
     */
    function GetAttr(name: string): Option<Value>
      reads this
    {
      Lookup(attrs, defaults, name)
    }

    /** A fresh instance of a class with these hints and defaults: no instance attributes yet. */
    constructor (hints: seq<(string, TypeForm)>, defaults: map<string, Value>)
      requires UniqueNames(hints)
      ensures this.hints == hints && this.defaults == defaults && attrs == map[]
    {
      this.hints := hints;
      this.defaults := defaults;
      attrs := map[];
    }

    /**
     * `_set_attr`, with `copy.copy` of a value being the value itself.
     * For each public hint in order the current attribute (or class
     * default) is read first, so a field with neither raises
     * `AttributeError` even when kwargs supplies it; then the kwarg is
     * popped if present and the value is passed through `parse_type` and
     * stored. The first failure propagates. `Ok(leftover)` carries the
     * public kwargs no hint consumed.
     */
    method SetAttr(kwargs: seq<(string, Value)>) returns (r: Result<map<string, Value>, PyError>)
      requires UniqueNames(hints)
      modifies this
      ensures var run := SetAttrRun(old(attrs), defaults, PublicKwargs(kwargs), PublicHints(hints));
        if r.Ok? then run == Ok(SetState(r.value, attrs)) else run == Err(r.error)
      ensures forall k :: !HasName(PublicHints(hints), k) ==>
        (k in attrs <==> k in old(attrs)) && (k in attrs ==> attrs[k] == old(attrs)[k])
    {
      var run, at := ApplyHints(attrs, defaults, PublicKwargs(kwargs), PublicHints(hints));
      attrs := at;
      match run
      case Ok(st) => return Ok(st.remaining);
      case Err(e) => return Err(e);
    }

    /**
     * `__init__(**kwargs)`: `_set_attr`, whose error propagates, then
     * `TypeError` when a public kwarg named no hint; the fields are stored
     * by then. It succeeds exactly when the run succeeds and every public
     * kwarg names a hint, and then each public hint's field holds its
     * conversion.
     */
    method Init(kwargs: seq<(string, Value)>) returns (r: Result<(), PyError>)
      requires UniqueNames(hints)
      modifies this
      ensures var run := SetAttrRun(old(attrs), defaults, PublicKwargs(kwargs), PublicHints(hints));
        (run.Err? ==> r == Err(run.error))
        && (run.Ok? ==> attrs == run.value.attrs)
        && (r.Ok? <==> run.Ok? && forall k :: k in PublicKwargs(kwargs) ==> HasName(PublicHints(hints), k))
        && (run.Ok? && r.Err? ==> r.error == TypeError)
      ensures r.Ok? ==> forall j :: 0 <= j < |PublicHints(hints)| ==>
        Stored(old(attrs), defaults, PublicKwargs(kwargs), attrs, PublicHints(hints)[j].0, PublicHints(hints)[j].1)
      ensures forall k :: !HasName(PublicHints(hints), k) ==>
        (k in attrs <==> k in old(attrs)) && (k in attrs ==> attrs[k] == old(attrs)[k])
    {
      ghost var a0 := attrs;
      var leftover := SetAttr(kwargs);
      if leftover.Err? {
        return Err(leftover.error);
      }
      RunRemaining(a0, defaults, PublicKwargs(kwargs), PublicHints(hints));
      RunStored(a0, defaults, PublicKwargs(kwargs), PublicHints(hints));
      if leftover.value != map[] {
        ghost var k :| k in leftover.value;
        return Err(TypeError);
      }
      return Ok(());
    }
  }
}
