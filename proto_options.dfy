/**
 * The two `SetField` helpers of mediapipe-solutions/solution_base.cc, over an
 * abstract protobuf message. A message is the list of fields that protobuf
 * reflection's ListFields reports for it, in that order; each field has a
 * name, a C++ kind and its present value(s). Reflection internals, ownership
 * of nested messages and the schema of absent fields are not modelled.
 */
module ProtoOptions {
  import opened Wrappers
  import opened Widths
  import opened Util

  /**
   * FieldDescriptor::CppType. An enum field carries the numbers its enum
   * type declares.
   */
  datatype CppType =
    | CppInt32 | CppInt64 | CppUInt32 | CppUInt64 | CppDouble | CppFloat
    | CppBool | CppEnum(declared: set<int32>) | CppString | CppMessage

  /**
   * A std::any, tagged with the C++ type it holds. `int` and `int32_t` are
   * the same type, so IntValue serves both. Floating-point values are bit
   * patterns. OtherValue is any other type, a `const char *` for instance.
   */
  datatype AnyValue =
    | IntValue(i: int32)
    | Int64Value(l: int64)
    | UInt32Value(u: uint32)
    | UInt64Value(ul: uint64)
    | DoubleValue(d: bv64)
    | FloatValue(f: bv32)
    | BoolValue(b: bool)
    | StringValue(s: string)
    | MessageValue(m: Message)
    | OtherValue(typeName: string)

  /** The present value of a singular field, or the elements of a repeated one. */
  datatype FieldValues = Singular(value: AnyValue) | Repeated(values: seq<AnyValue>)

  datatype Field = Field(name: string, kind: CppType, content: FieldValues)

  datatype Message = Message(fields: seq<Field>)

  /** The name of the extension field that leads to a calculator's own options. */
  const ExtName: string := "ext"

  function FieldNotFound(name: string): Error {
    OutOfRangeError("Field '" + name + "' not found.")
  }

  /** Reflection's MutableMessage on a field that is not a singular message aborts. */
  const NotASubMessage: Error := FatalError("MutableMessage on a field that is not a singular message")

  /** `any_cast` to the type the switch picks for `kind` succeeds: the exact type, no coercion. */
  predicate Accepts(kind: CppType, v: AnyValue) {
    match kind
    case CppInt32 => v.IntValue?
    case CppInt64 => v.Int64Value?
    case CppUInt32 => v.UInt32Value?
    case CppUInt64 => v.UInt64Value?
    case CppDouble => v.DoubleValue?
    case CppFloat => v.FloatValue?
    case CppBool => v.BoolValue?
    case CppEnum(_) => v.IntValue?
    case CppString => v.StringValue?
    case CppMessage => v.MessageValue?
  }

  /** The values of a field as a list: one element for a singular field. */
  function Values(f: Field): seq<AnyValue> {
    match f.content
    case Singular(v) => [v]
    case Repeated(vs) => vs
  }

  /**
   * The reflection setter stores `v` in a field of this kind. Options messages
   * are proto2, where SetEnumValue and AddEnumValue put a number the enum does
   * not declare into the unknown-field set instead of the field.
   */
  predicate Stores(kind: CppType, v: AnyValue) {
    kind.CppEnum? && v.IntValue? ==> v.i in kind.declared
  }

  /**
   * The field after AddX (repeated) or SetX (singular) with `v`; unchanged
   * when the value is not stored.
   */
  function Assigned(f: Field, v: AnyValue): Field {
    if !Stores(f.kind, v) then f
    else
      match f.content
      case Singular(_) => f.(content := Singular(v))
      case Repeated(vs) => f.(content := Repeated(vs + [v]))
  }

  /** Name, kind and singular-or-repeated of every field agree. */
  ghost predicate SameLayout(a: seq<Field>, b: seq<Field>) {
    |a| == |b| &&
    forall j :: 0 <= j < |a| ==>
      a[j].name == b[j].name && a[j].kind == b[j].kind &&
      a[j].content.Repeated? == b[j].content.Repeated?
  }

  /**
   * Every field holds values of its kind, a repeated field that is listed
   * is not empty, and nested messages are well formed too.
   */
  ghost predicate WellFormed(m: Message)
    decreases m
  {
    forall j :: 0 <= j < |m.fields| ==>
      match m.fields[j].content
      case Singular(v) =>
        Accepts(m.fields[j].kind, v) && (v.MessageValue? ==> WellFormed(v.m))
      case Repeated(vs) =>
        |vs| > 0 &&
        forall k :: 0 <= k < |vs| ==>
          Accepts(m.fields[j].kind, vs[k]) && (vs[k].MessageValue? ==> WellFormed(vs[k].m))
  }

  ghost predicate WellFormedValue(v: AnyValue) {
    v.MessageValue? ==> WellFormed(v.m)
  }

  /**
   * The field table of SetField-by-name: the first listed field with a name
   * wins, as `unordered_map::emplace` keeps the entry already present.
   */
  function FindField(fields: seq<Field>, name: string): (r: Option<nat>)
    ensures r.Some? ==>
      r.value < |fields| && fields[r.value].name == name &&
      forall j :: 0 <= j < r.value ==> fields[j].name != name
    ensures r.None? ==> forall j :: 0 <= j < |fields| ==> fields[j].name != name
  {
    if fields == [] then None
    else if fields[0].name == name then Some(0)
    else match FindField(fields[1..], name)
      case None => None
      case Some(i) => Some(i + 1)
  }

  /** The field is a singular message field holding a sub-message. */
  predicate IsSubMessage(f: Field) {
    f.kind == CppMessage && f.content.Singular? && f.content.value.MessageValue?
  }

  /**
   * SetField by descriptor (solution_base.cc:67-140): an exact-type
   * `any_cast`, then append to a repeated field or replace a singular one.
   */
  function SetFieldAt(m: Message, i: nat, v: AnyValue): (r: Result<Message, Error>)
    requires i < |m.fields|
    ensures r.Success? <==> Accepts(m.fields[i].kind, v)
    ensures r.Failure? ==> r.error == BadAnyCast
    ensures r.Success? ==>
      SameLayout(m.fields, r.value.fields) &&
      (forall j :: 0 <= j < |m.fields| && j != i ==> r.value.fields[j] == m.fields[j]) &&
      (!Stores(m.fields[i].kind, v) ==> r.value.fields[i] == m.fields[i]) &&
      (Stores(m.fields[i].kind, v) && m.fields[i].content.Repeated? ==>
         Values(r.value.fields[i]) == Values(m.fields[i]) + [v]) &&
      (Stores(m.fields[i].kind, v) && m.fields[i].content.Singular? ==> Values(r.value.fields[i]) == [v])
  {
    if Accepts(m.fields[i].kind, v) then
      Success(Message(m.fields[i := Assigned(m.fields[i], v)]))
    else
      Failure(BadAnyCast)
  }

  /**
   * SetField by name (solution_base.cc:142-161), as a specification: a listed
   * field of that name, else the same lookup inside the listed `ext`
   * sub-message, else "Field '<name>' not found.".
   */
  function Patched(m: Message, name: string, v: AnyValue): Result<Message, Error>
    decreases m
  {
    match FindField(m.fields, name)
    case Some(i) => SetFieldAt(m, i, v)
    case None =>
      match FindField(m.fields, ExtName)
      case None => Failure(FieldNotFound(name))
      case Some(e) =>
        if !IsSubMessage(m.fields[e]) then Failure(NotASubMessage)
        else
          assert m.fields[e] in m.fields;
          match Patched(m.fields[e].content.value.m, name, v)
          case Failure(err) => Failure(err)
          case Success(sub) =>
            Success(Message(m.fields[e := m.fields[e].(content := Singular(MessageValue(sub)))]))
  }

  /**
   * The field a by-name lookup reaches, following the same path as Patched:
   * this is how the patched options are read back.
   */
  function Lookup(m: Message, name: string): Option<Field>
    decreases m
  {
    match FindField(m.fields, name)
    case Some(i) => Some(m.fields[i])
    case None =>
      match FindField(m.fields, ExtName)
      case None => None
      case Some(e) =>
        if !IsSubMessage(m.fields[e]) then None
        else
          assert m.fields[e] in m.fields;
          Lookup(m.fields[e].content.value.m, name)
  }

  /** Builds the name table of SetField-by-name in one pass over the listed fields. */
  method BuildFieldTable(fields: seq<Field>) returns (table: map<string, nat>)
    ensures forall name :: FindField(fields, name) == (if name in table then Some(table[name]) else None)
  {
    table := map[];
    var i := 0;
    while i < |fields|
      invariant 0 <= i <= |fields|
      invariant TableOf(fields[..i], table)
    {
      var next := if fields[i].name in table then table else table[fields[i].name := i];
      TableStep(fields, i, table, next);
      table := next;
      i := i + 1;
    }
    assert fields[..i] == fields;
  }

  /** `table` answers the first-match lookup over `fields`. */
  ghost predicate TableOf(fields: seq<Field>, table: map<string, nat>) {
    forall name :: FindField(fields, name) == (if name in table then Some(table[name]) else None)
  }

  /** One `emplace` of the next listed field keeps the table answering the lookup. */
  lemma TableStep(fields: seq<Field>, i: nat, table: map<string, nat>, next: map<string, nat>)
    requires i < |fields| && TableOf(fields[..i], table)
    requires next == if fields[i].name in table then table else table[fields[i].name := i]
    ensures TableOf(fields[..i + 1], next)
  {
    forall name ensures FindField(fields[..i + 1], name) == (if name in next then Some(next[name]) else None) {
      assert fields[..i + 1] == fields[..i] + [fields[i]];
      FindFieldSnoc(fields[..i], fields[i], name);
    }
  }

  lemma FindFieldSnoc(s: seq<Field>, f: Field, name: string)
    ensures FindField(s + [f], name) ==
      (if FindField(s, name).Some? then FindField(s, name)
       else if f.name == name then Some(|s|) else None)
  {
    var t := s + [f];
    match FindField(s, name)
    case Some(k) =>
      assert t[k].name == name;
      assert forall j :: 0 <= j < k ==> t[j].name != name;
    case None =>
      if f.name == name {
        assert t[|s|].name == name;
      }
  }

  /** SetField by name (solution_base.cc:142-161), as the source runs it. */
  method SetField(m: Message, name: string, v: AnyValue) returns (r: Result<Message, Error>)
    ensures r == Patched(m, name, v)
    decreases m
  {
    var table := BuildFieldTable(m.fields);
    if name in table {
      r := SetFieldAt(m, table[name], v);
    } else if ExtName in table {
      var e := table[ExtName];
      var ext := m.fields[e];
      if !IsSubMessage(ext) {
        r := Failure(NotASubMessage);
      } else {
        assert ext in m.fields;
        var sub := SetField(ext.content.value.m, name, v);
        if sub.Failure? {
          r := Failure(sub.error);
        } else {
          r := Success(Message(m.fields[e := ext.(content := Singular(MessageValue(sub.value)))]));
        }
      }
    } else {
      r := Failure(FieldNotFound(name));
    }
  }

  /** Fields with the same names are found at the same place. */
  lemma FindFieldSameNames(a: seq<Field>, b: seq<Field>, name: string)
    requires SameLayout(a, b)
    ensures FindField(a, name) == FindField(b, name)
  {
    var ra := FindField(a, name);
    if ra.Some? {
      assert b[ra.value].name == name;
    }
  }

  /** Patching never adds, removes, renames or re-kinds a listed field. */
  lemma PatchedKeepsLayout(m: Message, name: string, v: AnyValue)
    requires Patched(m, name, v).Success?
    ensures SameLayout(m.fields, Patched(m, name, v).value.fields)
  {
  }

  /**
   * Patching succeeds exactly when the by-name lookup reaches a field and the
   * value has exactly that field's kind.
   */
  lemma {:induction false} PatchedSucceedsIff(m: Message, name: string, v: AnyValue)
    ensures Patched(m, name, v).Success? <==>
      Lookup(m, name).Some? && Accepts(Lookup(m, name).value.kind, v)
    decreases m
  {
    if FindField(m.fields, name).None? {
      var e := FindField(m.fields, ExtName);
      if e.Some? && IsSubMessage(m.fields[e.value]) {
        assert m.fields[e.value] in m.fields;
        PatchedSucceedsIff(m.fields[e.value].content.value.m, name, v);
      }
    }
  }

  /**
   * Read-back: after a successful patch, the same lookup reaches the field
   * with the value applied: appended to a repeated field (its earlier
   * elements unchanged) or replacing a singular one.
   */
  lemma {:induction false} PatchedReadBack(m: Message, name: string, v: AnyValue)
    requires Patched(m, name, v).Success?
    ensures Lookup(m, name).Some?
    ensures Lookup(Patched(m, name, v).value, name) == Some(Assigned(Lookup(m, name).value, v))
    decreases m
  {
    var m' := Patched(m, name, v).value;
    PatchedKeepsLayout(m, name, v);
    FindFieldSameNames(m.fields, m'.fields, name);
    FindFieldSameNames(m.fields, m'.fields, ExtName);
    if FindField(m.fields, name).None? {
      var e := FindField(m.fields, ExtName).value;
      assert m.fields[e] in m.fields;
      var sub := m.fields[e].content.value.m;
      PatchedReadBack(sub, name, v);
      assert m'.fields[e].content.value.m == Patched(sub, name, v).value;
    }
  }

  /**
   * A number the enum does not declare reaches no field: the patch succeeds
   * and the field reads back as it was.
   */
  lemma PatchedUndeclaredEnum(m: Message, name: string, n: int32)
    requires Lookup(m, name).Some? && Lookup(m, name).value.kind.CppEnum?
    requires n !in Lookup(m, name).value.kind.declared
    ensures Patched(m, name, IntValue(n)).Success?
    ensures Lookup(Patched(m, name, IntValue(n)).value, name) == Lookup(m, name)
  {
    PatchedSucceedsIff(m, name, IntValue(n));
    PatchedReadBack(m, name, IntValue(n));
  }

  /**
   * No other field changes: a field found by name is the only one replaced;
   * otherwise the `ext` field is the only one replaced, by the same field
   * holding the patched sub-message.
   */
  lemma PatchedOtherFields(m: Message, name: string, v: AnyValue)
    requires Patched(m, name, v).Success?
    ensures FindField(m.fields, name).Some? ==>
      forall j :: 0 <= j < |m.fields| && j != FindField(m.fields, name).value ==>
        Patched(m, name, v).value.fields[j] == m.fields[j]
    ensures FindField(m.fields, name).None? ==>
      && FindField(m.fields, ExtName).Some?
      && IsSubMessage(m.fields[FindField(m.fields, ExtName).value])
      && var e := FindField(m.fields, ExtName).value;
         var sub := m.fields[e].content.value.m;
         && Patched(sub, name, v).Success?
         && |Patched(m, name, v).value.fields| == |m.fields|
         && Patched(m, name, v).value.fields[e] == m.fields[e].(content := Singular(MessageValue(Patched(sub, name, v).value)))
         && forall j :: 0 <= j < |m.fields| && j != e ==> Patched(m, name, v).value.fields[j] == m.fields[j]
  {
  }

  /**
   * Every other name reads the same field after a patch. Neither name may be
   * `ext`: patching `ext` itself replaces the sub-message other lookups enter.
   */
  lemma {:induction false} PatchedLookupOthers(m: Message, name: string, v: AnyValue, other: string)
    requires Patched(m, name, v).Success?
    requires other != name && other != ExtName && name != ExtName
    ensures Lookup(Patched(m, name, v).value, other) == Lookup(m, other)
    decreases m
  {
    var m' := Patched(m, name, v).value;
    PatchedKeepsLayout(m, name, v);
    PatchedOtherFields(m, name, v);
    FindFieldSameNames(m.fields, m'.fields, other);
    FindFieldSameNames(m.fields, m'.fields, ExtName);
    if FindField(m.fields, name).None? {
      var e := FindField(m.fields, ExtName).value;
      assert m.fields[e] in m.fields;
      var sub := m.fields[e].content.value.m;
      PatchedLookupOthers(sub, name, v, other);
    }
  }

  /** Patching a well-formed message with a well-formed value keeps it well formed. */
  lemma {:induction false} PatchedKeepsWellFormed(m: Message, name: string, v: AnyValue)
    requires WellFormed(m) && WellFormedValue(v)
    requires Patched(m, name, v).Success?
    ensures WellFormed(Patched(m, name, v).value)
    decreases m
  {
    var m' := Patched(m, name, v).value;
    match FindField(m.fields, name)
    case Some(i) =>
      assert WellFormed(m') by {
        forall j | 0 <= j < |m'.fields|
          ensures FieldOk(m'.fields[j])
        {
          if j != i {
            assert m'.fields[j] == m.fields[j];
            assert FieldOk(m.fields[j]);
          } else {
            assert m'.fields[i] == Assigned(m.fields[i], v);
            assert FieldOk(m.fields[i]);
          }
        }
        FieldsOkWellFormed(m');
      }
    case None =>
      var e := FindField(m.fields, ExtName).value;
      assert m.fields[e] in m.fields;
      var sub := m.fields[e].content.value.m;
      assert WellFormed(sub) by { assert FieldOk(m.fields[e]); }
      PatchedKeepsWellFormed(sub, name, v);
      assert WellFormed(m') by {
        forall j | 0 <= j < |m'.fields|
          ensures FieldOk(m'.fields[j])
        {
          if j != e {
            assert m'.fields[j] == m.fields[j];
            assert FieldOk(m.fields[j]);
          }
        }
        FieldsOkWellFormed(m');
      }
  }

  /** The per-field condition of WellFormed. */
  ghost predicate FieldOk(f: Field)
    decreases f
  {
    match f.content
    case Singular(v) =>
      Accepts(f.kind, v) && (v.MessageValue? ==> WellFormed(v.m))
    case Repeated(vs) =>
      |vs| > 0 &&
      forall k :: 0 <= k < |vs| ==>
        Accepts(f.kind, vs[k]) && (vs[k].MessageValue? ==> WellFormed(vs[k].m))
  }

  lemma FieldsOkWellFormed(m: Message)
    ensures WellFormed(m) <==> forall j :: 0 <= j < |m.fields| ==> FieldOk(m.fields[j])
  {
  }
}
