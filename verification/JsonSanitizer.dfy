/**
 * The JSON sanitiser: a recursive rewrite of Python values that replaces what JSON cannot carry.
 * RFC 8259, section 6, rules out NaN and the infinities.
 */
module JsonSanitizer {
  import opened Wrappers

  datatype Number = Finite(r: real) | NaN | PosInf | NegInf

  datatype Decimal = DecFinite(r: real) | DecInf(negative: bool) | DecNaN | DecSignallingNaN

  /** Dictionary keys: those `json.dumps` accepts, and any other hashable value. */
  datatype Key =
    | StrKey(s: string)
    | IntKey(n: int)
    | FloatKey(x: Number)
    | BoolKey(b: bool)
    | NoneKey
    | OtherKey(tag: string)

  datatype Entry = Entry(key: Key, value: Py)

  /** Dates carry their `isoformat`, identifiers their `str`; `Other` is any type not handled. */
  datatype Py =
    | PyNone
    | PyFloat(x: Number)
    | PyDecimal(d: Decimal)
    | PyDate(iso: string)
    | PyUuid(text: string)
    | PyBytes(size: nat)
    | PyDict(entries: seq<Entry>)
    | PyList(items: seq<Py>)
    | PyTuple(items: seq<Py>)
    | PyStr(s: string)
    | PyInt(n: int)
    | PyBool(b: bool)
    | PyOther(tag: string)

  /** How a finite decimal becomes a float; a large one may overflow to an infinity. */
  type Rounding = real -> Number

  /** `float(d)`, which raises on a signalling NaN. */
  function ToFloat(round: Rounding, d: Decimal): Option<Number> {
    match d
    case DecFinite(r) => Some(round(r))
    case DecInf(negative) => Some(if negative then NegInf else PosInf)
    case DecNaN => Some(NaN)
    case DecSignallingNaN => None
  }

  function FloatOrNone(x: Number): Py {
    if x.Finite? then PyFloat(x) else PyNone
  }

  /** The sanitised value, or no value when the rewrite raises. */
  function Sanitize(round: Rounding, v: Py): Option<Py>
    decreases v
  {
    match v
    case PyNone => Some(PyNone)
    case PyFloat(x) => Some(FloatOrNone(x))
    case PyDecimal(d) =>
      var x := ToFloat(round, d);
      if x.Some? then Some(FloatOrNone(x.value)) else None
    case PyDate(iso) => Some(PyStr(iso))
    case PyUuid(text) => Some(PyStr(text))
    case PyBytes(_) => Some(PyNone)
    case PyDict(entries) =>
      var r := SanitizeEntries(round, entries);
      if r.Some? then Some(PyDict(r.value)) else None
    case PyList(items) =>
      var r := SanitizeItems(round, items);
      if r.Some? then Some(PyList(r.value)) else None
    case PyTuple(items) =>
      var r := SanitizeItems(round, items);
      if r.Some? then Some(PyList(r.value)) else None
    case _ => Some(v)
  }

  function SanitizeEntries(round: Rounding, entries: seq<Entry>): Option<seq<Entry>>
    decreases entries
  {
    if entries == [] then Some([])
    else
      var first, rest := SanitizeEntry(round, entries[0]), SanitizeEntries(round, entries[1..]);
      if first.Some? && rest.Some? then Some([first.value] + rest.value) else None
  }

  function SanitizeEntry(round: Rounding, e: Entry): Option<Entry>
    decreases e
  {
    var r := Sanitize(round, e.value);
    if r.Some? then Some(Entry(e.key, r.value)) else None
  }

  function SanitizeItems(round: Rounding, items: seq<Py>): Option<seq<Py>>
    decreases items
  {
    if items == [] then Some([])
    else
      var first, rest := Sanitize(round, items[0]), SanitizeItems(round, items[1..]);
      if first.Some? && rest.Some? then Some([first.value] + rest.value) else None
  }

  // ---------------------------------------------------------------------------------------
  // Element by element
  // ---------------------------------------------------------------------------------------

  lemma {:induction false} EntriesSpec(round: Rounding, entries: seq<Entry>)
    ensures var r := SanitizeEntries(round, entries);
      && (r.Some? <==> forall i :: 0 <= i < |entries| ==> Sanitize(round, entries[i].value).Some?)
      && (r.Some? ==>
            && |r.value| == |entries|
            && forall i :: 0 <= i < |entries| ==>
                 r.value[i].key == entries[i].key && Some(r.value[i].value) == Sanitize(round, entries[i].value))
  {
    if entries != [] {
      EntriesSpec(round, entries[1..]);
      assert forall i :: 0 < i < |entries| ==> entries[i] == entries[1..][i - 1];
    }
  }

  lemma {:induction false} ItemsSpec(round: Rounding, items: seq<Py>)
    ensures var r := SanitizeItems(round, items);
      && (r.Some? <==> forall i :: 0 <= i < |items| ==> Sanitize(round, items[i]).Some?)
      && (r.Some? ==>
            && |r.value| == |items|
            && forall i :: 0 <= i < |items| ==> Some(r.value[i]) == Sanitize(round, items[i]))
  {
    if items != [] {
      ItemsSpec(round, items[1..]);
      assert forall i :: 0 < i < |items| ==> items[i] == items[1..][i - 1];
    }
  }

  // ---------------------------------------------------------------------------------------
  // When it raises
  // ---------------------------------------------------------------------------------------

  predicate HoldsSignallingNaN(v: Py) {
    match v
    case PyDecimal(d) => d.DecSignallingNaN?
    case PyDict(entries) => exists i :: 0 <= i < |entries| && HoldsSignallingNaN(entries[i].value)
    case PyList(items) => exists i :: 0 <= i < |items| && HoldsSignallingNaN(items[i])
    case PyTuple(items) => exists i :: 0 <= i < |items| && HoldsSignallingNaN(items[i])
    case _ => false
  }

  lemma {:induction false} RaisesOnSignallingNaN(round: Rounding, v: Py)
    ensures Sanitize(round, v).None? <==> HoldsSignallingNaN(v)
    decreases v
  {
    match v
    case PyDict(entries) =>
      EntriesSpec(round, entries);
      forall i | 0 <= i < |entries|
        ensures Sanitize(round, entries[i].value).None? <==> HoldsSignallingNaN(entries[i].value)
      {
        RaisesOnSignallingNaN(round, entries[i].value);
      }
    case PyList(items) => ItemsRaise(round, v, items);
    case PyTuple(items) => ItemsRaise(round, v, items);
    case _ =>
  }

  lemma ItemsRaise(round: Rounding, v: Py, items: seq<Py>)
    requires v == PyList(items) || v == PyTuple(items)
    ensures SanitizeItems(round, items).None? <==> exists i :: 0 <= i < |items| && HoldsSignallingNaN(items[i])
    decreases v, 0
  {
    ItemsSpec(round, items);
    forall i | 0 <= i < |items|
      ensures Sanitize(round, items[i]).None? <==> HoldsSignallingNaN(items[i])
    {
      RaisesOnSignallingNaN(round, items[i]);
    }
  }

  // ---------------------------------------------------------------------------------------
  // What comes out
  // ---------------------------------------------------------------------------------------

  /** JSON values: finite numbers, no tuples, no foreign leaves, keys that can be written. */
  predicate IsJson(v: Py) {
    match v
    case PyNone => true
    case PyFloat(x) => x.Finite?
    case PyStr(_) => true
    case PyInt(_) => true
    case PyBool(_) => true
    case PyDict(entries) =>
      forall i :: 0 <= i < |entries| ==> !entries[i].key.OtherKey? && IsJson(entries[i].value)
    case PyList(items) => forall i :: 0 <= i < |items| ==> IsJson(items[i])
    case _ => false
  }

  /** No leaf of an unhandled type and no key that JSON cannot write, anywhere in the tree. */
  predicate OnlyHandledKinds(v: Py) {
    match v
    case PyOther(_) => false
    case PyDict(entries) =>
      forall i :: 0 <= i < |entries| ==> !entries[i].key.OtherKey? && OnlyHandledKinds(entries[i].value)
    case PyList(items) => forall i :: 0 <= i < |items| ==> OnlyHandledKinds(items[i])
    case PyTuple(items) => forall i :: 0 <= i < |items| ==> OnlyHandledKinds(items[i])
    case _ => true
  }

  /** The result is JSON exactly when the input holds handled kinds only: keys are never rewritten. */
  lemma {:induction false} ResultIsJson(round: Rounding, v: Py)
    requires Sanitize(round, v).Some?
    ensures IsJson(Sanitize(round, v).value) <==> OnlyHandledKinds(v)
    decreases v
  {
    match v
    case PyDict(entries) =>
      EntriesSpec(round, entries);
      var r := SanitizeEntries(round, entries).value;
      forall i | 0 <= i < |entries|
        ensures r[i].key == entries[i].key && (IsJson(r[i].value) <==> OnlyHandledKinds(entries[i].value))
      {
        ResultIsJson(round, entries[i].value);
      }
    case PyList(items) => ItemsAreJson(round, v, items);
    case PyTuple(items) => ItemsAreJson(round, v, items);
    case _ =>
  }

  lemma ItemsAreJson(round: Rounding, v: Py, items: seq<Py>)
    requires v == PyList(items) || v == PyTuple(items)
    requires SanitizeItems(round, items).Some?
    ensures var r := SanitizeItems(round, items).value;
      (forall i :: 0 <= i < |r| ==> IsJson(r[i])) <==> (forall i :: 0 <= i < |items| ==> OnlyHandledKinds(items[i]))
    decreases v, 0
  {
    ItemsSpec(round, items);
    var r := SanitizeItems(round, items).value;
    forall i | 0 <= i < |items| ensures IsJson(r[i]) <==> OnlyHandledKinds(items[i]) {
      ResultIsJson(round, items[i]);
    }
  }

  /** Sanitising again changes nothing, and never raises. */
  lemma {:induction false} SanitizeIsIdempotent(round: Rounding, v: Py)
    requires Sanitize(round, v).Some?
    ensures Sanitize(round, Sanitize(round, v).value) == Sanitize(round, v)
    decreases v
  {
    match v
    case PyDict(entries) =>
      EntriesSpec(round, entries);
      var r := SanitizeEntries(round, entries).value;
      EntriesSpec(round, r);
      forall i | 0 <= i < |entries| ensures Sanitize(round, r[i].value) == Some(r[i].value) {
        SanitizeIsIdempotent(round, entries[i].value);
      }
      assert SanitizeEntries(round, r).value == r;
    case PyList(items) => ItemsAreFixed(round, v, items);
    case PyTuple(items) => ItemsAreFixed(round, v, items);
    case _ =>
  }

  lemma ItemsAreFixed(round: Rounding, v: Py, items: seq<Py>)
    requires v == PyList(items) || v == PyTuple(items)
    requires SanitizeItems(round, items).Some?
    ensures var r := SanitizeItems(round, items).value; SanitizeItems(round, r) == Some(r)
    decreases v, 0
  {
    ItemsSpec(round, items);
    var r := SanitizeItems(round, items).value;
    ItemsSpec(round, r);
    forall i | 0 <= i < |items| ensures Sanitize(round, r[i]) == Some(r[i]) {
      SanitizeIsIdempotent(round, items[i]);
    }
    assert SanitizeItems(round, r).value == r;
  }

  // ---------------------------------------------------------------------------------------
  // Paths
  // ---------------------------------------------------------------------------------------

  datatype Step = AtKey(key: Key) | AtIndex(index: nat)

  function EntryAt(entries: seq<Entry>, key: Key): Option<Py> {
    if entries == [] then None
    else if entries[0].key == key then Some(entries[0].value)
    else EntryAt(entries[1..], key)
  }

  function Child(v: Py, step: Step): Option<Py> {
    if v.PyDict? && step.AtKey? then EntryAt(v.entries, step.key)
    else if (v.PyList? || v.PyTuple?) && step.AtIndex? && step.index < |v.items| then Some(v.items[step.index])
    else None
  }

  /** The value that a path leads to, if it leads anywhere. */
  function Follow(v: Py, path: seq<Step>): Option<Py>
    decreases path
  {
    if path == [] then Some(v)
    else
      var c := Child(v, path[0]);
      if c.Some? then Follow(c.value, path[1..]) else None
  }

  ghost predicate IsFirstEntry(entries: seq<Entry>, key: Key, i: int) {
    && 0 <= i < |entries| && entries[i].key == key
    && forall j :: 0 <= j < i ==> entries[j].key != key
  }

  /** A key leads to the first entry that bears it. */
  lemma {:induction false} EntryAtFindsFirst(entries: seq<Entry>, key: Key)
    ensures EntryAt(entries, key).None? ==> forall i :: 0 <= i < |entries| ==> entries[i].key != key
    ensures EntryAt(entries, key).Some? ==> exists i ::
      0 <= i < |entries| && IsFirstEntry(entries, key, i) && EntryAt(entries, key) == Some(entries[i].value)
  {
    if entries != [] {
      var rest := entries[1..];
      EntryAtFindsFirst(rest, key);
      assert forall i :: 0 < i < |entries| ==> entries[i] == rest[i - 1];
      if entries[0].key == key {
        assert IsFirstEntry(entries, key, 0);
      } else if EntryAt(rest, key).Some? {
        var i :| 0 <= i < |rest| && IsFirstEntry(rest, key, i) && EntryAt(rest, key) == Some(rest[i].value);
        assert IsFirstEntry(entries, key, i + 1);
      }
    }
  }

  /** A path is followed step by step: by first entry in dictionaries, by position in lists and tuples. */
  lemma FollowsSteps(v: Py, key: Key, index: nat, rest: seq<Step>)
    ensures Follow(v, []) == Some(v)
    ensures v.PyDict? ==>
      Follow(v, [AtKey(key)] + rest)
      == if EntryAt(v.entries, key).Some? then Follow(EntryAt(v.entries, key).value, rest) else None
    ensures v.PyList? || v.PyTuple? ==>
      Follow(v, [AtIndex(index)] + rest) == if index < |v.items| then Follow(v.items[index], rest) else None
  {
    assert ([AtKey(key)] + rest)[1..] == rest && ([AtIndex(index)] + rest)[1..] == rest;
  }

  lemma {:induction false} EntryAtCommutes(round: Rounding, entries: seq<Entry>, key: Key)
    requires SanitizeEntries(round, entries).Some?
    ensures var before, after := EntryAt(entries, key), EntryAt(SanitizeEntries(round, entries).value, key);
      if before.Some? then Sanitize(round, before.value) == after && after.Some? else after.None?
  {
    if entries != [] {
      var rest := SanitizeEntries(round, entries[1..]).value;
      var all := SanitizeEntries(round, entries).value;
      assert all[1..] == rest;
      EntryAtCommutes(round, entries[1..], key);
    }
  }

  lemma ChildCommutes(round: Rounding, v: Py, step: Step)
    requires Sanitize(round, v).Some?
    ensures var before, after := Child(v, step), Child(Sanitize(round, v).value, step);
      if before.Some? then Sanitize(round, before.value) == after && after.Some? else after.None?
  {
    match v
    case PyDict(entries) =>
      if step.AtKey? {
        EntryAtCommutes(round, entries, step.key);
      }
    case PyList(items) => ItemsSpec(round, items);
    case PyTuple(items) => ItemsSpec(round, items);
    case _ =>
  }

  /** Following a path and sanitising commute: the same paths exist, and lead to sanitised values. */
  lemma {:induction false} FollowCommutes(round: Rounding, v: Py, path: seq<Step>)
    requires Sanitize(round, v).Some?
    ensures var before, after := Follow(v, path), Follow(Sanitize(round, v).value, path);
      if before.Some? then Sanitize(round, before.value) == after && after.Some? else after.None?
    decreases path
  {
    if path != [] {
      ChildCommutes(round, v, path[0]);
      var c := Child(v, path[0]);
      if c.Some? {
        FollowCommutes(round, c.value, path[1..]);
      }
    }
  }

  /** Dictionaries keep their keys in order, and sequences their length. */
  lemma ShapeIsKept(round: Rounding, v: Py)
    requires Sanitize(round, v).Some?
    ensures var w := Sanitize(round, v).value;
      && (v.PyDict? ==>
            && w.PyDict? && |w.entries| == |v.entries|
            && forall i :: 0 <= i < |v.entries| ==> w.entries[i].key == v.entries[i].key)
      && (v.PyList? || v.PyTuple? ==> w.PyList? && |w.items| == |v.items|)
  {
    if v.PyDict? {
      EntriesSpec(round, v.entries);
    } else if v.PyList? || v.PyTuple? {
      ItemsSpec(round, v.items);
    }
  }

  // ---------------------------------------------------------------------------------------
  // What is kept, leaf by leaf
  // ---------------------------------------------------------------------------------------

  /** A value that JSON can carry already is not changed. */
  lemma {:induction false} JsonIsKept(round: Rounding, v: Py)
    requires IsJson(v)
    ensures Sanitize(round, v) == Some(v)
    decreases v
  {
    match v
    case PyDict(entries) =>
      EntriesSpec(round, entries);
      forall i | 0 <= i < |entries| ensures Sanitize(round, entries[i].value) == Some(entries[i].value) {
        JsonIsKept(round, entries[i].value);
      }
      assert SanitizeEntries(round, entries).value == entries;
    case PyList(items) =>
      ItemsSpec(round, items);
      forall i | 0 <= i < |items| ensures Sanitize(round, items[i]) == Some(items[i]) {
        JsonIsKept(round, items[i]);
      }
      assert SanitizeItems(round, items).value == items;
    case _ =>
  }

  /** The leaves that become null: those without a JSON value. */
  predicate HasNoJsonValue(round: Rounding, v: Py) {
    match v
    case PyNone => true
    case PyBytes(_) => true
    case PyFloat(x) => x == NaN || x == PosInf || x == NegInf
    case PyDecimal(d) => !d.DecFinite? || round(d.r) == NaN || round(d.r) == PosInf || round(d.r) == NegInf
    case _ => false
  }

  /** What stands in the result where a path of the original leads. */
  lemma LeavesBecome(round: Rounding, v: Py, path: seq<Step>)
    requires Sanitize(round, v).Some? && Follow(v, path).Some?
    ensures Follow(Sanitize(round, v).value, path).Some?
    ensures var a, b := Follow(v, path).value, Follow(Sanitize(round, v).value, path).value;
      && (b == PyNone <==> HasNoJsonValue(round, a))
      && (a.PyFloat? && a.x.Finite? ==> b == a)
      && (a.PyDecimal? && !HasNoJsonValue(round, a) ==> b == PyFloat(round(a.d.r)))
      && (a.PyDate? ==> b == PyStr(a.iso)) && (a.PyUuid? ==> b == PyStr(a.text))
      && (a.PyStr? || a.PyInt? || a.PyBool? || a.PyOther? ==> b == a)
      && (a.PyDict? ==> b.PyDict?) && (a.PyList? || a.PyTuple? ==> b.PyList?)
  {
    FollowCommutes(round, v, path);
  }
}
