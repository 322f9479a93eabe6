/**
 * The typed check configurations of the rule compiler: objects with declared fields and captured
 * extras that are read and written like a dictionary, dumped to one, and coerced from one.
 */
module CheckConfig {
  import opened Wrappers

  datatype Value =
    | Null
    | Bool(b: bool)
    | Int(n: int)
    | Float(x: real)
    | Str(s: string)
    | Seq(items: seq<Value>)
    | Dict(entries: map<string, Value>)

  type Dump = map<string, Value>

  datatype ConfigClass =
    | Completeness | Validity | Uniqueness | Conformity | Consistency
    | Timeliness | Accuracy | Reconciliation | Generic

  datatype FieldType =
    | Literal(text: string)
    | Text
    | Flag
    | OptionalText
    | OptionalNumber
    | OptionalScalars
    | OptionalTexts

  const DIMENSION := "check_dimension"

  predicate HasType(t: FieldType, v: Value) {
    match t
    case Literal(text) => v == Str(text)
    case Text => v.Str?
    case Flag => v.Bool?
    case OptionalText => v.Null? || v.Str?
    case OptionalNumber => v.Null? || v.Float?
    case OptionalScalars => v.Null? || (v.Seq? && forall i :: 0 <= i < |v.items| ==>
                              v.items[i].Str? || v.items[i].Int? || v.items[i].Float?)
    case OptionalTexts => v.Null? || (v.Seq? && forall i :: 0 <= i < |v.items| ==> v.items[i].Str?)
  }

  /** The declared fields of a class with their types and defaults. */
  function FieldsOf(c: ConfigClass): map<string, (FieldType, Value)> {
    match c
    case Completeness => map[
      DIMENSION := (Literal("completeness"), Str("completeness")),
      "null_handling" := (Text, Str("skip")),
      "include_empty_strings" := (Flag, Bool(false)),
      "filter_expression" := (OptionalText, Null)]
    case Validity => map[
      DIMENSION := (Literal("validity"), Str("validity")),
      "validation_type" := (Text, Str("value_in_list")),
      "allowed_values" := (OptionalScalars, Null),
      "pattern" := (OptionalText, Null)]
    case Uniqueness => map[
      DIMENSION := (Literal("uniqueness"), Str("uniqueness")),
      "uniqueness_mode" := (Text, Str("single")),
      "scope_columns" := (OptionalTexts, Null)]
    case Conformity => map[
      DIMENSION := (Literal("conformity"), Str("conformity")),
      "conformity_type" := (Text, Str("regex")),
      "standard" := (OptionalText, Null),
      "pattern" := (OptionalText, Null)]
    case Consistency => map[
      DIMENSION := (Literal("consistency"), Str("consistency")),
      "consistency_type" := (Text, Str("cross_field")),
      "reference_field" := (OptionalText, Null),
      "tolerance" := (OptionalNumber, Null)]
    case Timeliness => map[
      DIMENSION := (Literal("timeliness"), Str("timeliness")),
      "timeliness_type" := (Text, Str("freshness")),
      "max_age" := (OptionalText, Null),
      "date_column" := (OptionalText, Null)]
    case Accuracy => map[
      DIMENSION := (Literal("accuracy"), Str("accuracy")),
      "accuracy_type" := (Text, Str("numeric")),
      "reference_column" := (OptionalText, Null),
      "tolerance" := (OptionalNumber, Null)]
    case Reconciliation => map[
      DIMENSION := (Literal("reconciliation"), Str("reconciliation")),
      "recon_type" := (Text, Str("count")),
      "target_dataset_id" := (OptionalText, Null),
      "target_column" := (OptionalText, Null)]
    case Generic => map[DIMENSION := (Text, Str("generic"))]
  }

  /** `_DIM_CONFIG_MAP.get(dim, GenericCheckConfig)` for a hashable `dim`. */
  function ClassFor(dimension: Value): ConfigClass {
    if dimension == Str("completeness") then Completeness
    else if dimension == Str("validity") then Validity
    else if dimension == Str("uniqueness") then Uniqueness
    else if dimension == Str("conformity") then Conformity
    else if dimension == Str("consistency") then Consistency
    else if dimension == Str("timeliness") then Timeliness
    else if dimension == Str("accuracy") then Accuracy
    else if dimension == Str("reconciliation") then Reconciliation
    else Generic
  }

  predicate Hashable(v: Value) {
    !v.Seq? && !v.Dict?
  }

  /** A configuration as a value: its class, its declared fields, and its extras. */
  datatype Config = Config(cls: ConfigClass, fields: Dump, extras: Dump)

  /** The declared fields are all present, and no extra bears the name of one. */
  ghost predicate WellFormed(c: Config) {
    c.fields.Keys == FieldsOf(c.cls).Keys && c.extras.Keys !! c.fields.Keys
  }

  ghost predicate WellTyped(c: Config)
    requires WellFormed(c)
  {
    forall k :: k in c.fields ==> HasType(FieldsOf(c.cls)[k].0, c.fields[k])
  }

  function ModelDump(c: Config): Dump {
    c.fields + c.extras
  }

  function Write(c: Config, key: string, value: Value): Config {
    if key in FieldsOf(c.cls) then c.(fields := c.fields[key := value])
    else c.(extras := c.extras[key := value])
  }

  function WriteAll(c: Config, writes: seq<(string, Value)>): Config {
    if writes == [] then c
    else Write(WriteAll(c, writes[..|writes| - 1]), writes[|writes| - 1].0, writes[|writes| - 1].1)
  }

  /** A write changes the dumped dictionary as it would a plain one. */
  lemma WriteUpdatesDump(c: Config, key: string, value: Value)
    requires WellFormed(c)
    ensures WellFormed(Write(c, key, value))
    ensures ModelDump(Write(c, key, value)) == ModelDump(c)[key := value]
  {
    var w := Write(c, key, value);
    if key in FieldsOf(c.cls) {
      assert w.fields.Keys == c.fields.Keys;
    } else {
      assert w.extras.Keys == c.extras.Keys + {key};
    }
  }

  /** The object whose dictionary interface the compiler uses. */
  class CheckConfigObject {
    const cls: ConfigClass
    var fields: Dump
    var extras: Option<Dump>

    ghost function Abstract(): Config
      reads this
    {
      Config(cls, fields, if extras.Some? then extras.value else map[])
    }

    ghost predicate Valid()
      reads this
    {
      WellFormed(Abstract())
    }

    constructor (c: Config)
      requires WellFormed(c)
      ensures Valid() && Abstract() == c
    {
      cls, fields, extras := c.cls, c.fields, Some(c.extras);
    }

    function Dumped(): Dump
      reads this
    {
      fields + if extras.Some? then extras.value else map[]
    }

    method GetItem(key: string) returns (r: Option<Value>)
      requires Valid()
      ensures r.None? <==> key !in ModelDump(Abstract())
      ensures r.Some? ==> r.value == ModelDump(Abstract())[key]
    {
      var dump := Dumped();
      if key in dump {
        return Some(dump[key]);
      }
      return None;
    }

    method SetItem(key: string, value: Value)
      requires Valid()
      modifies this
      ensures Valid() && Abstract() == Write(old(Abstract()), key, value)
      ensures ModelDump(Abstract()) == old(ModelDump(Abstract()))[key := value]
    {
      WriteUpdatesDump(Abstract(), key, value);
      if key in FieldsOf(cls) {
        fields := fields[key := value];
      } else {
        if extras.None? {
          extras := Some(map[]);
        }
        extras := Some(extras.value[key := value]);
      }
    }

    method Get(key: string, default: Value) returns (r: Value)
      requires Valid()
      ensures r == if key in ModelDump(Abstract()) then ModelDump(Abstract())[key] else default
    {
      var dump := Dumped();
      r := if key in dump then dump[key] else default;
    }

    method Contains(key: string) returns (present: bool)
      requires Valid()
      ensures present <==> key in ModelDump(Abstract())
    {
      present := key in Dumped();
    }
  }

  function PlainWrites(m: Dump, writes: seq<(string, Value)>): Dump {
    if writes == [] then m
    else PlainWrites(m, writes[..|writes| - 1])[writes[|writes| - 1].0 := writes[|writes| - 1].1]
  }

  /** Over any run of writes the object stays a plain dictionary, and keeps its class. */
  lemma {:induction false} WritesActLikePlainMap(c: Config, writes: seq<(string, Value)>)
    requires WellFormed(c)
    ensures var d := WriteAll(c, writes);
      WellFormed(d) && d.cls == c.cls && ModelDump(d) == PlainWrites(ModelDump(c), writes)
  {
    if writes != [] {
      var last := writes[|writes| - 1];
      WritesActLikePlainMap(c, writes[..|writes| - 1]);
      WriteUpdatesDump(WriteAll(c, writes[..|writes| - 1]), last.0, last.1);
    }
  }

  // ---------------------------------------------------------------------------------------
  // Coercion
  // ---------------------------------------------------------------------------------------

  /** Field validation: the stored value, or no value when the input is refused. */
  type Validator = (FieldType, Value) -> Option<Value>

  /**
   * What is assumed of field validation, which may convert: it keeps a value that has the
   * field's type as it is, and whatever it lets through has that type.
   */
  ghost predicate Sound(validate: Validator) {
    forall t, v ::
      && (HasType(t, v) ==> validate(t, v) == Some(v))
      && (validate(t, v).Some? ==> HasType(t, validate(t, v).value))
  }

  datatype Coerced = Unchanged(v: Value) | Built(config: Config) | UnhashableDimension | ValidationFailed

  predicate FieldsPass(validate: Validator, cls: ConfigClass, v: Dump) {
    forall k :: k in FieldsOf(cls) && k in v ==> validate(FieldsOf(cls)[k].0, v[k]).Some?
  }

  /** `cls(**v)` for input that passes validation. */
  function Construct(validate: Validator, cls: ConfigClass, v: Dump): (c: Config)
    requires FieldsPass(validate, cls, v)
  {
    Config(cls,
           map k | k in FieldsOf(cls) ::
             if k in v then validate(FieldsOf(cls)[k].0, v[k]).value else FieldsOf(cls)[k].1,
           map k | k in v && k !in FieldsOf(cls) :: v[k])
  }

  function Coerce(validate: Validator, v: Value): Coerced {
    if !v.Dict? then Unchanged(v)
    else
      var dimension := if DIMENSION in v.entries then v.entries[DIMENSION] else Str("generic");
      if !Hashable(dimension) then UnhashableDimension
      else
        var cls := ClassFor(dimension);
        if FieldsPass(validate, cls, v.entries) then Built(Construct(validate, cls, v.entries))
        else ValidationFailed
  }

  /** What the list types admit: null, or a list all of whose items are texts, or texts and numbers. */
  lemma ListTypes(items: seq<Value>)
    ensures HasType(OptionalTexts, Seq(items)) <==> forall item :: item in items ==> item.Str?
    ensures HasType(OptionalScalars, Seq(items))
       <==> forall item :: item in items ==> item.Str? || item.Int? || item.Float?
  {
  }

  /** Each of the eight known dimensions has its class, and every other value the generic one. */
  lemma ClassOfDimension(dimension: Value)
    ensures ClassFor(dimension) == Completeness <==> dimension == Str("completeness")
    ensures ClassFor(dimension) == Validity <==> dimension == Str("validity")
    ensures ClassFor(dimension) == Uniqueness <==> dimension == Str("uniqueness")
    ensures ClassFor(dimension) == Conformity <==> dimension == Str("conformity")
    ensures ClassFor(dimension) == Consistency <==> dimension == Str("consistency")
    ensures ClassFor(dimension) == Timeliness <==> dimension == Str("timeliness")
    ensures ClassFor(dimension) == Accuracy <==> dimension == Str("accuracy")
    ensures ClassFor(dimension) == Reconciliation <==> dimension == Str("reconciliation")
  {
  }

  /** Some declared field of the class is given a value that its validation refuses. */
  ghost predicate SomeFieldRefused(validate: Validator, cls: ConfigClass, v: Dump) {
    exists k :: k in FieldsOf(cls) && k in v && validate(FieldsOf(cls)[k].0, v[k]) == None
  }

  ghost predicate HoldsContents(validate: Validator, v: Dump, c: Config) {
    && (forall k :: k in c.fields <==> k in FieldsOf(c.cls))
    && (forall k :: k in c.fields && k in v ==> validate(FieldsOf(c.cls)[k].0, v[k]) == Some(c.fields[k]))
    && (forall k :: k in c.fields && k !in v ==> c.fields[k] == FieldsOf(c.cls)[k].1)
    && (forall k :: k in c.extras <==> k in v && k !in FieldsOf(c.cls))
    && (forall k :: k in c.extras ==> c.extras[k] == v[k])
  }

  /**
   * What coercing a dictionary gives. The class is that of `check_dimension`, generic if it is
   * absent; a given field has its validated value and another its default; the rest are extras.
   */
  lemma CoercedContents(validate: Validator, v: Dump)
    ensures var r := Coerce(validate, Dict(v));
      var dimension := if "check_dimension" in v then v["check_dimension"] else Null;
      && (r.UnhashableDimension? <==> dimension.Seq? || dimension.Dict?)
      && (r.ValidationFailed? <==>
            !dimension.Seq? && !dimension.Dict? && SomeFieldRefused(validate, ClassFor(dimension), v))
      && (r.Built? <==> !r.UnhashableDimension? && !r.ValidationFailed?)
      && (r.Built? ==> r.config.cls == ClassFor(dimension) && HoldsContents(validate, v, r.config))
  {
    assert ClassFor(Null) == ClassFor(Str("generic"));
  }

  lemma DefaultsHaveTheirTypes(cls: ConfigClass, k: string)
    requires k in FieldsOf(cls)
    ensures HasType(FieldsOf(cls)[k].0, FieldsOf(cls)[k].1)
  {
  }

  lemma DimensionIsDeclared(cls: ConfigClass)
    ensures DIMENSION in FieldsOf(cls)
  {
  }

  lemma DimensionDefault(cls: ConfigClass)
    ensures DIMENSION in FieldsOf(cls)
    ensures FieldsOf(cls)[DIMENSION].1.Str? && ClassFor(FieldsOf(cls)[DIMENSION].1) == cls
  {
  }

  /** The dimension field is a literal that names the class, except for generic configurations. */
  lemma DimensionField(cls: ConfigClass)
    ensures DIMENSION in FieldsOf(cls)
    ensures FieldsOf(cls)[DIMENSION].1.Str? && ClassFor(FieldsOf(cls)[DIMENSION].1) == cls
    ensures FieldsOf(cls)[DIMENSION].0
         == if cls.Generic? then Text else Literal(FieldsOf(cls)[DIMENSION].1.s)
  {
    DimensionDefault(cls);
  }

  /** Whatever coercion builds has all its declared fields, with values of their types. */
  lemma CoercedIsWellTyped(validate: Validator, v: Value)
    requires Sound(validate)
    ensures var r := Coerce(validate, v);
      r.Built? ==> WellFormed(r.config) && WellTyped(r.config)
  {
    var r := Coerce(validate, v);
    if r.Built? {
      var c := r.config;
      assert c.fields.Keys == FieldsOf(c.cls).Keys;
      forall k | k in c.fields ensures HasType(FieldsOf(c.cls)[k].0, c.fields[k]) {
        DefaultsHaveTheirTypes(c.cls, k);
      }
    }
  }

  /** The current value of `check_dimension`. */
  function Dimension(c: Config): Value
    requires WellFormed(c)
  {
    DimensionIsDeclared(c.cls);
    c.fields[DIMENSION]
  }

  ghost predicate DimensionNamesClass(c: Config)
    requires WellFormed(c)
  {
    ClassFor(Dimension(c)) == c.cls
  }

  lemma ConstructFromDump(validate: Validator, c: Config)
    requires Sound(validate) && WellFormed(c) && WellTyped(c)
    ensures FieldsPass(validate, c.cls, ModelDump(c))
    ensures Construct(validate, c.cls, ModelDump(c)) == c
  {
    var dump := ModelDump(c);
    assert forall k :: k in c.fields ==> k in dump && dump[k] == c.fields[k];
    var built := Construct(validate, c.cls, dump);
    assert built.fields == c.fields;
    assert built.extras == c.extras;
  }

  /**
   * Dumping a configuration and coercing the dump gives the configuration back exactly when its
   * values have their types and its `check_dimension` still names its class.
   */
  lemma DumpThenCoerce(validate: Validator, c: Config)
    requires Sound(validate) && WellFormed(c)
    ensures Coerce(validate, Dict(ModelDump(c))) == Built(c) <==> WellTyped(c) && DimensionNamesClass(c)
  {
    DimensionIsDeclared(c.cls);
    var dump := ModelDump(c);
    assert forall k :: k in c.fields ==> k in dump && dump[k] == c.fields[k];
    assert forall k :: k in c.extras ==> k in dump && dump[k] == c.extras[k];
    var r := Coerce(validate, Dict(dump));
    if r == Built(c) {
      CoercedIsWellTyped(validate, Dict(dump));
    }
    if WellTyped(c) && DimensionNamesClass(c) {
      assert HasType(FieldsOf(c.cls)[DIMENSION].0, c.fields[DIMENSION]);
      DimensionField(c.cls);
      assert FieldsPass(validate, c.cls, dump);
      ConstructFromDump(validate, c);
    }
  }

  /** Writes that leave `check_dimension` alone and give declared fields values of their types. */
  ghost predicate TypedWrites(cls: ConfigClass, writes: seq<(string, Value)>) {
    forall i :: 0 <= i < |writes| ==>
      && writes[i].0 != DIMENSION
      && (writes[i].0 in FieldsOf(cls) ==> HasType(FieldsOf(cls)[writes[i].0].0, writes[i].1))
  }

  lemma {:induction false} TypedWritesKeepTypes(c: Config, writes: seq<(string, Value)>)
    requires WellFormed(c) && WellTyped(c) && TypedWrites(c.cls, writes)
    ensures var d := WriteAll(c, writes);
      WellFormed(d) && d.cls == c.cls && WellTyped(d) && Dimension(d) == Dimension(c)
  {
    DimensionIsDeclared(c.cls);
    if writes != [] {
      var last := writes[|writes| - 1];
      TypedWritesKeepTypes(c, writes[..|writes| - 1]);
      WriteUpdatesDump(WriteAll(c, writes[..|writes| - 1]), last.0, last.1);
    }
  }

  /**
   * A configuration coerced from a dictionary whose `check_dimension` is a string or absent
   * survives any run of typed writes: dumping and coercing again gives it back.
   */
  lemma CoercedSurvivesRoundTrip(validate: Validator, v: Dump, writes: seq<(string, Value)>)
    requires Sound(validate)
    requires DIMENSION in v ==> v[DIMENSION].Str?
    requires Coerce(validate, Dict(v)).Built?
    requires TypedWrites(Coerce(validate, Dict(v)).config.cls, writes)
    ensures var c := WriteAll(Coerce(validate, Dict(v)).config, writes);
      Coerce(validate, Dict(ModelDump(c))) == Built(c)
  {
    var c := Coerce(validate, Dict(v)).config;
    CoercedIsWellTyped(validate, Dict(v));
    DimensionIsDeclared(c.cls);
    DimensionField(c.cls);
    assert HasType(FieldsOf(c.cls)[DIMENSION].0, c.fields[DIMENSION]);
    assert ClassFor(c.fields[DIMENSION]) == c.cls;
    TypedWritesKeepTypes(c, writes);
    DumpThenCoerce(validate, WriteAll(c, writes));
  }

  /** A generic configuration told that it checks completeness comes back as another class. */
  lemma OverwrittenDimensionChangesClass(validate: Validator, c: Config)
    requires Sound(validate) && WellFormed(c) && c.cls.Generic?
    ensures var d := Write(c, DIMENSION, Str("completeness"));
      Coerce(validate, Dict(ModelDump(d))) != Built(d)
  {
    DimensionIsDeclared(c.cls);
    WriteUpdatesDump(c, DIMENSION, Str("completeness"));
    DumpThenCoerce(validate, Write(c, DIMENSION, Str("completeness")));
  }

  /** The assumption on validators can be met: accepting well-typed values only is one way. */
  lemma StrictValidatorIsSound()
    ensures Sound((t, v) => if HasType(t, v) then Some(v) else None)
  {
  }
}
