/**
  Declarative record schemas (`odm.Model` subclasses) as explicit data, and
  the construction rule this model assumes of the `odm` library: an input
  naming an undeclared field is refused; otherwise, for each declared field,
  a present value is taken and shaped by the field's kind, an absent one
  falls back to the field's default, to "absent" when the field is optional,
  and otherwise construction fails. The coercion of primitive kinds is not
  modelled: their values are kept as given.
*/
module Records {
  import opened Wrappers
  import Enums
  import LogEntry

  /** A raw or constructed document value. Numbers are opaque: no arithmetic is done on them. */
  datatype Value =
    | Null
    | Str(s: string)
    | Bool(b: bool)
    | Num(repr: string)
    | List(items: seq<Value>)
    | Obj(entries: map<string, Value>)

  /** The kind of a field, as its `odm` declaration names it. */
  datatype Kind =
    | Keyword
    | Text
    | Uuid
    | Sha256
    | Date
    | Boolean
    | Float
    | EnumOf(table: Enums.EnumTable)
    | Compound(model: Model)
    | ListOf(elem: Kind)
    | Mapping
    | Flattened

  /** A field's `default=`: none, a constant, or `"NOW"` (the construction time). */
  datatype Default = NoDefault | Given(value: Value) | Now

  /** One field declaration: `name = odm.Kind(..., default=...)`, wrapped in `odm.Optional` or not. */
  datatype Field = Field(name: string, kind: Kind, optional: bool, default: Default)

  /** A check a model runs on its raw input before its fields are built (`Log.__init__`). */
  datatype Guard = Unguarded | ExplanationOrDiff

  /** A record type: its fields in declaration order and its guard. */
  datatype Model = Model(name: string, fields: seq<Field>, guard: Guard)

  /** Why construction failed. */
  datatype Error =
    | NoInput(model: string)
    | MissingRequiredField(model: string, field: string)
    | FieldTypeMismatch(model: string, field: string)
    | InvalidLogEntry(model: string)
    | UnknownFields(model: string, names: set<string>)

  /** A field that must be present in the input: neither optional nor defaulted. */
  predicate Required(f: Field)
  {
    !f.optional && f.default == NoDefault
  }

  /** A kind whose values are taken as given. */
  predicate Primitive(k: Kind)
  {
    !k.Compound? && !k.ListOf? && !k.Mapping?
  }

  /** The names of the fields that must be present in the input. */
  function RequiredNames(m: Model): set<string>
  {
    set i | 0 <= i < |m.fields| && Required(m.fields[i]) :: m.fields[i].name
  }

  /** The names of all declared fields. */
  function FieldNames(m: Model): set<string>
  {
    NameSet(m.fields)
  }

  /** The names of a run of field declarations. */
  function NameSet(fs: seq<Field>): set<string>
  {
    set i | 0 <= i < |fs| :: fs[i].name
  }

  /** No name is declared twice, as in a class body. */
  predicate DistinctNames(fs: seq<Field>)
  {
    forall i, j :: 0 <= i < j < |fs| ==> fs[i].name != fs[j].name
  }

  /** Field `i` is the first declaration of its name. */
  predicate FirstOfName(m: Model, i: nat)
    requires i < |m.fields|
  {
    forall j :: 0 <= j < i ==> m.fields[j].name != m.fields[i].name
  }

  /** Build a record of type `m` from raw input `data`, at construction time `now`. */
  function Construct(m: Model, data: map<string, Value>, now: Value): Result<map<string, Value>, Error>
    decreases m, 3
  {
    if m.guard == ExplanationOrDiff && !LogEntry.Admissible(data.Keys) then Err(InvalidLogEntry(m.name))
    else if !(data.Keys <= FieldNames(m)) then Err(UnknownFields(m.name, data.Keys - FieldNames(m)))
    else BuildFields(m, 0, data, now)
  }

  /** The fields from position `i` on. */
  function BuildFields(m: Model, i: nat, data: map<string, Value>, now: Value): Result<map<string, Value>, Error>
    requires i <= |m.fields|
    decreases m, 2, |m.fields| - i
  {
    if i == |m.fields| then Ok(map[])
    else
      match Resolve(m.name, m.fields[i], data, now)
      case Err(e) => Err(e)
      case Ok(v) =>
        match BuildFields(m, i + 1, data, now)
        case Err(e) => Err(e)
        case Ok(rest) => Ok(rest[m.fields[i].name := v])
  }

  /** The value field `i` of `m` takes. */
  function FieldValue(m: Model, i: nat, data: map<string, Value>, now: Value): Result<Value, Error>
    requires i < |m.fields|
  {
    Resolve(m.name, m.fields[i], data, now)
  }

  /** The value field `f` of record type `owner` takes: from the input, from its default, absent, or a failure. */
  function Resolve(owner: string, f: Field, data: map<string, Value>, now: Value): Result<Value, Error>
    decreases f, 1
  {
    if f.name in data then
      if data[f.name] == Null && f.optional then Ok(Null)
      else Coerce(owner, f.name, f.kind, data[f.name], now)
    else
      match f.default
      case Given(d) => Coerce(owner, f.name, f.kind, d, now)
      case Now => Ok(now)
      case NoDefault => if f.optional then Ok(Null) else Err(MissingRequiredField(owner, f.name))
  }

  /** Shape value `v` by kind `k`: nested records are built, lists built element by element. */
  function Coerce(owner: string, field: string, k: Kind, v: Value, now: Value): Result<Value, Error>
    decreases k, 0
  {
    match k
    case Compound(sub) =>
      if v.Obj? then
        match Construct(sub, v.entries, now)
        case Ok(r) => Ok(Obj(r))
        case Err(e) => Err(e)
      else Err(FieldTypeMismatch(owner, field))
    case ListOf(elem) =>
      if v.List? then CoerceList(owner, field, elem, v.items, now)
      else Err(FieldTypeMismatch(owner, field))
    case Mapping =>
      if v.Obj? then Ok(v) else Err(FieldTypeMismatch(owner, field))
    case _ => Ok(v)
  }

  /** Shape every element of a list by kind `k`, keeping their order. */
  function CoerceList(owner: string, field: string, k: Kind, vs: seq<Value>, now: Value): Result<Value, Error>
    decreases k, 1, |vs|
  {
    if vs == [] then Ok(List([]))
    else
      match Coerce(owner, field, k, vs[0], now)
      case Err(e) => Err(e)
      case Ok(x) =>
        match CoerceList(owner, field, k, vs[1..], now)
        case Err(e) => Err(e)
        case Ok(rest) => Ok(List([x] + rest.items))
  }

  // ---------------------------------------------------------------------------
  // What construction guarantees

  lemma {:induction false} BuildFieldsOk(m: Model, i: nat, data: map<string, Value>, now: Value)
    requires i <= |m.fields|
    decreases |m.fields| - i
    ensures BuildFields(m, i, data, now).Ok? <==>
      forall j :: i <= j < |m.fields| ==> FieldValue(m, j, data, now).Ok?
  {
    if i < |m.fields| {
      BuildFieldsOk(m, i + 1, data, now);
      assert BuildFields(m, i, data, now).Ok? <==>
        FieldValue(m, i, data, now).Ok? && BuildFields(m, i + 1, data, now).Ok?;
      assert (forall j :: i <= j < |m.fields| ==> FieldValue(m, j, data, now).Ok?) <==>
        FieldValue(m, i, data, now).Ok? && forall j :: i + 1 <= j < |m.fields| ==> FieldValue(m, j, data, now).Ok?;
    }
  }

  lemma {:induction false} BuildFieldsKeys(m: Model, i: nat, data: map<string, Value>, now: Value)
    requires i <= |m.fields| && BuildFields(m, i, data, now).Ok?
    decreases |m.fields| - i
    ensures BuildFields(m, i, data, now).value.Keys == set j | i <= j < |m.fields| :: m.fields[j].name
  {
    if i < |m.fields| {
      BuildFieldsKeys(m, i + 1, data, now);
      var later := set j | i + 1 <= j < |m.fields| :: m.fields[j].name;
      assert (set j | i <= j < |m.fields| :: m.fields[j].name) == later + {m.fields[i].name};
    }
  }

  lemma {:induction false} BuildFieldsAt(m: Model, i: nat, data: map<string, Value>, now: Value, j: nat)
    requires i <= j < |m.fields| && BuildFields(m, i, data, now).Ok?
    requires forall k :: i <= k < j ==> m.fields[k].name != m.fields[j].name
    decreases j - i
    ensures FieldValue(m, j, data, now).Ok?
    ensures m.fields[j].name in BuildFields(m, i, data, now).value
    ensures BuildFields(m, i, data, now).value[m.fields[j].name] == FieldValue(m, j, data, now).value
  {
    BuildFieldsOk(m, i, data, now);
    if i < j {
      BuildFieldsAt(m, i + 1, data, now, j);
    }
  }

  /**
    Construction succeeds exactly when the guard passes, the input names no
    undeclared field and every field resolves. The record then holds every
    declared field, none other, each with the value its declaration resolves
    to.
  */
  lemma ConstructSpec(m: Model, data: map<string, Value>, now: Value)
    ensures Construct(m, data, now).Ok? <==>
      && (m.guard == ExplanationOrDiff ==> LogEntry.Admissible(data.Keys))
      && data.Keys <= FieldNames(m)
      && forall i :: 0 <= i < |m.fields| ==> FieldValue(m, i, data, now).Ok?
    ensures Construct(m, data, now).Ok? ==> Construct(m, data, now).value.Keys == FieldNames(m)
    ensures Construct(m, data, now).Ok? ==>
      forall i :: 0 <= i < |m.fields| && FirstOfName(m, i) ==>
        FieldValue(m, i, data, now).Ok? &&
        Construct(m, data, now).value[m.fields[i].name] == FieldValue(m, i, data, now).value
  {
    BuildFieldsOk(m, 0, data, now);
    if Construct(m, data, now).Ok? {
      BuildFieldsKeys(m, 0, data, now);
      forall i | 0 <= i < |m.fields| && FirstOfName(m, i)
        ensures FieldValue(m, i, data, now).Ok?
        ensures Construct(m, data, now).value[m.fields[i].name] == FieldValue(m, i, data, now).value
      {
        BuildFieldsAt(m, 0, data, now, i);
      }
    }
  }

  /** A successful construction is the construction of its fields. */
  lemma ConstructBuilds(m: Model, data: map<string, Value>, now: Value)
    requires Construct(m, data, now).Ok?
    ensures BuildFields(m, 0, data, now) == Construct(m, data, now)
  {
  }

  /** A required field missing from the input makes construction fail. */
  lemma MissingRequiredFails(m: Model, data: map<string, Value>, now: Value, i: nat)
    requires i < |m.fields| && Required(m.fields[i]) && m.fields[i].name !in data
    ensures Construct(m, data, now).Err?
  {
    assert FieldValue(m, i, data, now) == Err(MissingRequiredField(m.name, m.fields[i].name));
    BuildFieldsOk(m, 0, data, now);
  }

  /**
    An input naming a field the model does not declare is refused, once the
    guard has passed, with the undeclared names.
  */
  lemma UnknownFieldRejected(m: Model, data: map<string, Value>, now: Value, k: string)
    requires k in data && k !in FieldNames(m)
    ensures Construct(m, data, now).Err?
    ensures (m.guard == ExplanationOrDiff ==> LogEntry.Admissible(data.Keys)) ==>
      Construct(m, data, now) == Err(UnknownFields(m.name, data.Keys - FieldNames(m)))
    ensures Construct(m, data, now).error.UnknownFields? ==> k in Construct(m, data, now).error.names
  {
  }

  /** A construction that succeeded had every required field in its input. */
  lemma RequiredPresent(m: Model, data: map<string, Value>, now: Value)
    requires Construct(m, data, now).Ok?
    ensures RequiredNames(m) <= data.Keys
  {
    forall n | n in RequiredNames(m)
      ensures n in data
    {
      var i :| 0 <= i < |m.fields| && Required(m.fields[i]) && m.fields[i].name == n;
      if n !in data {
        MissingRequiredFails(m, data, now, i);
      }
    }
  }

  /**
    A field of a primitive kind takes the input's value when present;
    otherwise its default, the construction time, absent (`Null`) when
    optional, and otherwise construction fails on it.
  */
  lemma PrimitiveResolve(owner: string, f: Field, data: map<string, Value>, now: Value)
    requires Primitive(f.kind)
    ensures Resolve(owner, f, data, now) ==
      if f.name in data then Ok(data[f.name])
      else match f.default
           case Given(d) => Ok(d)
           case Now => Ok(now)
           case NoDefault => if f.optional then Ok(Null) else Err(MissingRequiredField(owner, f.name))
  {
    assert forall v :: Coerce(owner, f.name, f.kind, v, now) == Ok(v);
  }

  /**
    What a field of a primitive kind holds after construction: the input's
    value when present; otherwise its default, the construction time for a
    `"NOW"` default, or absent (`Null`) for an optional field without default.
  */
  lemma PrimitiveFieldValue(m: Model, data: map<string, Value>, now: Value, i: nat)
    requires i < |m.fields| && FirstOfName(m, i) && Primitive(m.fields[i].kind)
    requires Construct(m, data, now).Ok?
    ensures m.fields[i].name in Construct(m, data, now).value
    ensures var f, r := m.fields[i], Construct(m, data, now).value;
      r[f.name] == if f.name in data then data[f.name]
                   else match f.default
                        case Given(d) => d
                        case Now => now
                        case NoDefault => Null
  {
    ConstructSpec(m, data, now);
    assert m.fields[i].name in FieldNames(m);
    var f := m.fields[i];
    assert f.kind.Compound? == false && f.kind.ListOf? == false && f.kind.Mapping? == false;
    PrimitiveResolve(m.name, f, data, now);
    if f.name in data {
      assert FieldValue(m, i, data, now).value == data[f.name];
    } else if f.default.Given? {
      assert FieldValue(m, i, data, now).value == f.default.value;
    } else if f.default.Now? {
      assert FieldValue(m, i, data, now).value == now;
    } else {
      assert FieldValue(m, i, data, now).value == Null;
    }
  }

  /**
    For a model whose fields are all of primitive kinds, construction
    succeeds exactly when the guard passes and the input names every
    required field and no undeclared one.
  */
  lemma FlatConstruct(m: Model, data: map<string, Value>, now: Value)
    requires forall i :: 0 <= i < |m.fields| ==> Primitive(m.fields[i].kind)
    ensures Construct(m, data, now).Ok? <==>
      && (m.guard == ExplanationOrDiff ==> LogEntry.Admissible(data.Keys))
      && RequiredNames(m) <= data.Keys && data.Keys <= FieldNames(m)
  {
    ConstructSpec(m, data, now);
    if (m.guard == ExplanationOrDiff ==> LogEntry.Admissible(data.Keys)) && RequiredNames(m) <= data.Keys {
      forall i | 0 <= i < |m.fields|
        ensures FieldValue(m, i, data, now).Ok?
      {
        var f := m.fields[i];
        if Required(f) {
          assert f.name in RequiredNames(m);
        }
        PrimitiveResolve(m.name, f, data, now);
      }
    }
    if Construct(m, data, now).Ok? {
      RequiredPresent(m, data, now);
    }
  }

  /** An absent nested-record field with a mapping default is built from that default. */
  lemma CompoundDefault(owner: string, f: Field, data: map<string, Value>, now: Value, sub: Model, d: map<string, Value>)
    requires f.name !in data && f.kind == Compound(sub) && f.default == Given(Obj(d))
    ensures Resolve(owner, f, data, now) ==
      match Construct(sub, d, now)
      case Ok(r) => Ok(Obj(r))
      case Err(e) => Err(e)
  {
  }

  /** An absent optional field without default is absent (`Null`) in the record. */
  lemma AbsentOptionalResolves(owner: string, f: Field, data: map<string, Value>, now: Value)
    requires f.optional && f.default == NoDefault && f.name !in data
    ensures Resolve(owner, f, data, now) == Ok(Null)
  {
  }

  /** An absent list field defaulting to the empty list resolves to the empty list. */
  lemma EmptyListResolves(owner: string, f: Field, data: map<string, Value>, now: Value)
    requires f.kind.ListOf? && f.default == Given(List([])) && f.name !in data
    ensures Resolve(owner, f, data, now) == Ok(List([]))
  {
    assert Coerce(owner, f.name, f.kind, List([]), now) == CoerceList(owner, f.name, f.kind.elem, [], now);
  }

  /** A field absent from the input resolves as it would from an empty input. */
  lemma AbsentFieldValue(m: Model, i: nat, data: map<string, Value>, now: Value)
    requires i < |m.fields| && m.fields[i].name !in data
    ensures FieldValue(m, i, data, now) == FieldValue(m, i, map[], now)
  {
  }

  /**
    Given values only for fields of primitive kinds, an unguarded model whose
    every non-required field resolves on its own is built exactly when the
    input names every required field and no undeclared one.
  */
  lemma ScalarInputConstruct(m: Model, data: map<string, Value>, now: Value)
    requires m.guard == Unguarded
    requires forall i :: 0 <= i < |m.fields| && m.fields[i].name in data ==> Primitive(m.fields[i].kind)
    requires forall i :: 0 <= i < |m.fields| && !Required(m.fields[i]) ==> FieldValue(m, i, map[], now).Ok?
    ensures Construct(m, data, now).Ok? <==> RequiredNames(m) <= data.Keys && data.Keys <= FieldNames(m)
  {
    ConstructSpec(m, data, now);
    if RequiredNames(m) <= data.Keys {
      forall i | 0 <= i < |m.fields|
        ensures FieldValue(m, i, data, now).Ok?
      {
        var f := m.fields[i];
        if f.name !in data {
          AbsentFieldValue(m, i, data, now);
        } else {
          PrimitiveResolve(m.name, f, data, now);
        }
      }
    }
    if Construct(m, data, now).Ok? {
      RequiredPresent(m, data, now);
    }
  }

  /** Two runs of distinct names with no name in common make one run of distinct names. */
  lemma DistinctConcat(a: seq<Field>, b: seq<Field>)
    requires DistinctNames(a) && DistinctNames(b) && NameSet(a) !! NameSet(b)
    ensures DistinctNames(a + b)
    ensures NameSet(a + b) == NameSet(a) + NameSet(b)
  {
    var ab := a + b;
    forall i, j | 0 <= i < j < |ab|
      ensures ab[i].name != ab[j].name
    {
      if j < |a| {
        assert ab[i] == a[i] && ab[j] == a[j];
      } else if |a| <= i {
        assert ab[i] == b[i - |a|] && ab[j] == b[j - |a|];
      } else {
        assert ab[i] == a[i] && a[i].name in NameSet(a);
        assert ab[j] == b[j - |a|] && b[j - |a|].name in NameSet(b);
      }
    }
    forall n | n in NameSet(a + b)
      ensures n in NameSet(a) + NameSet(b)
    {
      var i :| 0 <= i < |ab| && ab[i].name == n;
      if i < |a| {
        assert ab[i] == a[i];
      } else {
        assert ab[i] == b[i - |a|];
      }
    }
    forall n | n in NameSet(a) + NameSet(b)
      ensures n in NameSet(a + b)
    {
      if n in NameSet(a) {
        var i :| 0 <= i < |a| && a[i].name == n;
        assert ab[i] == a[i];
      } else {
        var i :| 0 <= i < |b| && b[i].name == n;
        assert ab[|a| + i] == b[i];
      }
    }
  }

  /** In a model whose names are distinct, every field is the first of its name. */
  lemma DistinctFirst(m: Model, i: nat)
    requires DistinctNames(m.fields) && i < |m.fields|
    ensures FirstOfName(m, i)
  {
  }

  /**
    A list is built element by element: it succeeds exactly when every
    element does, and then holds the built elements in the same order.
  */
  lemma {:induction false} CoerceListSpec(owner: string, field: string, k: Kind, vs: seq<Value>, now: Value)
    ensures CoerceList(owner, field, k, vs, now).Ok? <==>
      forall j :: 0 <= j < |vs| ==> Coerce(owner, field, k, vs[j], now).Ok?
    ensures CoerceList(owner, field, k, vs, now).Ok? ==>
      var r := CoerceList(owner, field, k, vs, now).value;
      r.List? && |r.items| == |vs| &&
      forall j :: 0 <= j < |vs| ==> r.items[j] == Coerce(owner, field, k, vs[j], now).value
  {
    if vs != [] {
      CoerceListSpec(owner, field, k, vs[1..], now);
      assert forall j :: 1 <= j < |vs| ==> vs[j] == vs[1..][j - 1];
    }
  }

  /** Every field is a list defaulting to the empty list (`Label`, `Votes`). */
  predicate AllEmptyListFields(m: Model)
  {
    forall i :: 0 <= i < |m.fields| ==> m.fields[i].kind.ListOf? && m.fields[i].default == Given(List([]))
  }

  /** The record whose every declared field holds the empty list. */
  function EmptyLists(m: Model): map<string, Value>
  {
    map n | n in FieldNames(m) :: List([])
  }

  lemma {:induction false} EmptyListsFrom(m: Model, i: nat, data: map<string, Value>, now: Value)
    requires i <= |m.fields| && AllEmptyListFields(m)
    requires forall k :: k in data ==> data[k] == List([])
    decreases |m.fields| - i
    ensures BuildFields(m, i, data, now).Ok?
    ensures BuildFields(m, i, data, now).value.Keys == set j | i <= j < |m.fields| :: m.fields[j].name
    ensures forall n :: n in BuildFields(m, i, data, now).value ==> BuildFields(m, i, data, now).value[n] == List([])
  {
    if i < |m.fields| {
      EmptyListsFrom(m, i + 1, data, now);
      var f := m.fields[i];
      assert CoerceList(m.name, f.name, f.kind.elem, [], now) == Ok(List([]));
      assert Coerce(m.name, f.name, f.kind, List([]), now) == Ok(List([]));
      assert FieldValue(m, i, data, now) == Ok(List([]));
      BuildFieldsKeys(m, i, data, now);
    }
  }

  /**
    A model made only of empty-list fields, given an input of declared
    fields whose values are empty lists, builds the record with every
    declared field, each empty, whichever of them the input names.
  */
  lemma AllEmptyLists(m: Model, data: map<string, Value>, now: Value)
    requires m.guard == Unguarded && AllEmptyListFields(m)
    requires data.Keys <= FieldNames(m)
    requires forall k :: k in data ==> data[k] == List([])
    ensures Construct(m, data, now) == Ok(EmptyLists(m))
  {
    EmptyListsFrom(m, 0, data, now);
    var r := BuildFields(m, 0, data, now).value;
    assert r.Keys == EmptyLists(m).Keys;
    assert forall n :: n in r ==> r[n] == EmptyLists(m)[n];
    assert r == EmptyLists(m);
  }
}
