/**
  CustomTempDataSerializer.JsonSerializableConverter and the JsonSerializer
  calls around it: how an IJsonSerializable object becomes a JSON object field
  by field, how such an object is read back into a fresh default instance,
  and what JsonSerializer does with the other values it is handed once the
  converter is registered.
*/
module JsonSerializableConverter {
  import opened Wrappers
  import opened Json
  import opened ClrTypes

  const TypePropertyName: string := "TypeDiscriminator"
  const ValuePropertyName: string := "ValueObject"

  // ---------------------------------------------------------------------
  // Field classification
  // ---------------------------------------------------------------------

  /** IsEnum(field): the field's type, with Nullable<T> unwrapped, is an enum. */
  predicate IsEnumField(t: RType) {
    (if t.TNullable? then t.underlying else t).TEnum?
  }

  /** IsNumber(field): the field is declared int, long or short. */
  predicate IsNumberField(t: RType) {
    t == TInt32 || t == TInt64 || t == TInt16
  }

  /** IsDecimal(field): the field is declared decimal (float and double are outside this model). */
  predicate IsDecimalField(t: RType) {
    t == TDecimal
  }

  predicate IsNumeric(v: Value) {
    v.Int16? || v.Int32? || v.Int64? || v.Decimal?
  }

  /** Utf8JsonWriter.WriteNumber: the number's literal. */
  function NumberJson(v: Value): (j: Json)
    requires IsNumeric(v)
    ensures j.JNumber? && (!v.Decimal? ==> j.scale == 0)
  {
    match v
    case Int16(i) => JNumber(i, 0)
    case Int32(i) => JNumber(i, 0)
    case Int64(i) => JNumber(i, 0)
    case Decimal(d) => JNumber(d.mantissa, d.scale)
  }

  /** Prepends what a loop has produced so far to what its remaining passes produce (or passes their error on). */
  function Prefixed<T>(prefix: seq<T>, r: Result<seq<T>>): Result<seq<T>> {
    if r.Ok? then Ok(prefix + r.value) else r
  }

  lemma PrefixedAppend<T>(acc: seq<T>, more: seq<T>, r: Result<seq<T>>)
    ensures Prefixed(acc, Prefixed(more, r)) == Prefixed(acc + more, r)
    ensures Prefixed(acc + [], r) == Prefixed(acc, r)
  {
    assert acc + [] == acc;
    if r.Ok? {
      assert acc + (more + r.value) == (acc + more) + r.value;
    }
  }

  // ---------------------------------------------------------------------
  // Writing
  // ---------------------------------------------------------------------

  /**
    One pass of Write's loop: the member written for field `f` holding `v`,
    or None when the field is skipped (a null reference field, a value type
    none of the branches writes, a reference type that is neither
    IJsonSerializable nor IEnumerable).
  */
  function WriteField(fmt: Formats, reg: Registry, f: Field, v: Value): (r: Result<Option<Member>>)
    // a null in a reference-type field is skipped; a null Nullable<T> cannot be dispatched on
    ensures v.Null? ==> r == if IsValueType(f.fieldType) then Err(RuntimeBinder) else Ok(None)
    // a value of a value type that no branch handles is skipped
    ensures (&& !v.Null? && IsValueType(TypeOf(v)) && !(v.Bool? || v.DateTime? || v.Guid?)
             && !IsEnumField(f.fieldType) && !IsNumberField(f.fieldType) && !IsDecimalField(f.fieldType))
            ==> r == Ok(None)
    // a written member carries the field's name and never an object
    ensures r.Ok? && r.value.Some? ==> r.value.value.name == f.name && !r.value.value.value.JObject? && !r.value.value.value.JArray?
    ensures r.Err? ==> !r.error.InvalidOperation?
    decreases v, 2
  {
    var t := f.fieldType;
    if !IsValueType(t) && v.Null? then Ok(None)
    else if IsEnumField(t) then
      match v
      case Enum(n, k) => Ok(Some(Member(f.name, JString(EnumToString(EnumMembers(reg, n), k)))))
      case _ => Err(RuntimeBinder)  // ToString() on a null Nullable<enum>
    else if v.Null? then Err(RuntimeBinder)  // GetType() on a null Nullable<T>
    else if v.Text? then Ok(Some(Member(f.name, JString(v.s))))
    else if v.DateTime? then Ok(Some(Member(f.name, JString(fmt.formatDateTime(v.t)))))
    else if v.Guid? then Ok(Some(Member(f.name, JString(fmt.formatGuid(v.g)))))
    else if IsNumberField(t) || IsDecimalField(t) then
      if IsNumeric(v) then Ok(Some(Member(f.name, NumberJson(v))))
      else Err(Unmodelled(MismatchedNumberField))
    else if v.Bool? then Ok(Some(Member(f.name, JBool(v.b))))
    else if IsValueType(TypeOf(v)) then Ok(None)
    else if v.Aggregate? then
      var j :- ConverterWrite(fmt, reg, v);
      Ok(Some(Member(f.name, JString(fmt.printJson(j)))))
    else if v.List? || TypeOf(v).TEnumerable? then
      // SerializeObject takes an IJsonSerializable; the dynamic call cannot bind a collection to it
      Err(RuntimeBinder)
    else Ok(None)
  }

  /** Write's loop over the fields in declaration order. */
  function WriteFields(fmt: Formats, reg: Registry, fs: seq<Field>, vs: seq<Value>): (r: Result<seq<Member>>)
    ensures r.Err? ==> !r.error.InvalidOperation?
    decreases vs
  {
    if |fs| != |vs| then Err(Unmodelled(MismatchedFields))
    else if vs == [] then Ok([])
    else
      var m :- WriteField(fmt, reg, fs[0], vs[0]);
      var rest :- WriteFields(fmt, reg, fs[1..], vs[1..]);
      Ok(if m.Some? then [m.value] + rest else rest)
  }

  /** JsonSerializableConverter.Write: one JSON object holding the fields that are written. */
  function ConverterWrite(fmt: Formats, reg: Registry, v: Value): (r: Result<Json>)
    requires v.Aggregate?
    ensures r.Ok? ==> r.value.JObject?
    ensures r.Err? ==> !r.error.InvalidOperation?
    decreases v, 0
  {
    var n := v.aggregateType;
    if !(n in reg && reg[n].AggregateInfo?) then Err(Unmodelled(UnregisteredObjectType))
    else
      var ms :- WriteFields(fmt, reg, reg[n].fields, v.fields);
      Ok(JObject(ms))
  }

  /**
    JsonSerializer.Serialize(v, v.GetType(), options) with the converter
    registered: the converter for IJsonSerializable objects, arrays for lists,
    numbers for enums, and the plain forms of the scalars.
  */
  function StjWrite(fmt: Formats, reg: Registry, v: Value): (r: Result<Json>)
    ensures r.Err? ==> !r.error.InvalidOperation?
    decreases v, 1
  {
    match v
    case Null => Ok(JNull)
    case Bool(b) => Ok(JBool(b))
    case Int16(_) => Ok(NumberJson(v))
    case Int32(_) => Ok(NumberJson(v))
    case Int64(_) => Ok(NumberJson(v))
    case Decimal(_) => Ok(NumberJson(v))
    case Text(s) => Ok(JString(s))
    case Guid(g) => Ok(JString(fmt.formatGuid(g)))
    case DateTime(t) => Ok(JString(fmt.formatDateTime(t)))
    case Enum(_, k) => Ok(JNumber(k, 0))
    case Aggregate(_, _) => ConverterWrite(fmt, reg, v)
    case List(_, items) =>
      var js :- StjWriteItems(fmt, reg, items);
      Ok(JArray(js))
    case Opaque(t) => Err(Unmodelled(ReflectionWrite(FullName(t))))
  }

  function StjWriteItems(fmt: Formats, reg: Registry, items: seq<Value>): (r: Result<seq<Json>>)
    ensures r.Ok? ==> |r.value| == |items|
    ensures r.Err? ==> !r.error.InvalidOperation?
    decreases items
  {
    if items == [] then Ok([])
    else
      var j :- StjWrite(fmt, reg, items[0]);
      var rest :- StjWriteItems(fmt, reg, items[1..]);
      Ok([j] + rest)
  }

  // ---------------------------------------------------------------------
  // Reading
  // ---------------------------------------------------------------------

  /** typeToConvert.GetField(name, Instance | NonPublic): the position of the field called `name`. */
  function FieldIndex(fs: seq<Field>, name: string): (r: Option<nat>)
    ensures r.Some? ==> r.value < |fs| && fs[r.value].name == name
    ensures r.None? ==> forall k :: 0 <= k < |fs| ==> fs[k].name != name
  {
    if fs == [] then None
    else if fs[0].name == name then Some(0)
    else match FieldIndex(fs[1..], name)
      case None => None
      case Some(k) => Some(k + 1)
  }

  /** Convert.ChangeType(reader.GetInt64(), field type) for an int, long or short field. */
  function ReadInteger(t: RType, j: Json): (r: Result<Value>)
    requires IsNumberField(t)
    ensures r.Ok? ==> Assignable(r.value, t)
  {
    match j
    case JNumber(m, s) =>
      if s != 0 || !InInt64(m) then Err(FormatError)
      else if t == TInt64 then Ok(Int64(m))
      else if t == TInt32 then (if InInt32(m) then Ok(Int32(m)) else Err(Overflow))
      else if InInt16(m) then Ok(Int16(m)) else Err(Overflow)
    case _ => Err(WrongValueKind)
  }

  /** reader.GetDecimal(). */
  function ReadDecimal(j: Json): Result<Value> {
    match j
    case JNumber(m, s) => if IsDecimal(m, s) then Ok(Decimal(DecimalRep(m, s))) else Err(FormatError)
    case _ => Err(WrongValueKind)
  }

  /** The field types Read has a branch for: an enum, string, int, long, short, decimal, bool, DateTime or Guid. */
  predicate HasReadBranch(t: RType) {
    IsEnumField(t) || t == TString || IsNumberField(t) || IsDecimalField(t) || t == TBool || t == TDateTime || t == TGuid
  }

  /**
    The branches of Read for a member whose value is not an object: the value
    assigned to field `f`, or None when no branch applies to the field's type
    and the field keeps the value it had.
  */
  function ReadFieldValue(fmt: Formats, reg: Registry, f: Field, j: Json): (r: Result<Option<Value>>)
    // what a branch assigns fits the field
    ensures r.Ok? && r.value.Some? ==> Assignable(r.value.value, f.fieldType)
    // a plain enum field is never assigned
    ensures f.fieldType.TEnum? ==> r.Err?
    // the field keeps its value exactly when no branch is for its type
    ensures r == Ok(None) <==> !HasReadBranch(f.fieldType)
  {
    var t := f.fieldType;
    if IsEnumField(t) then
      match j
      case JString(s) =>
        // Enum.Parse(Nullable.GetUnderlyingType(field.FieldType), ...): the type argument is null for a plain enum
        if !t.TNullable? then Err(ArgumentNull)
        else
          var k :- EnumParse(EnumMembers(reg, t.underlying.name), s);
          Ok(Some(Enum(t.underlying.name, k)))
      case JNull => Err(ArgumentNull)
      case _ => Err(WrongValueKind)
    else if t == TString then
      match j
      case JString(s) => Ok(Some(Text(s)))
      case JNull => Ok(Some(Null))
      case _ => Err(WrongValueKind)
    else if IsNumberField(t) then
      var v :- ReadInteger(t, j);
      Ok(Some(v))
    else if IsDecimalField(t) then
      var v :- ReadDecimal(j);
      Ok(Some(v))
    else if t == TBool then
      match j
      case JBool(b) => Ok(Some(Bool(b)))
      case _ => Err(WrongValueKind)
    else if t == TDateTime then
      match j
      case JString(s) => (match fmt.parseDateTime(s) case Some(d) => Ok(Some(DateTime(d))) case None => Err(FormatError))
      case _ => Err(WrongValueKind)
    else if t == TGuid then
      match j
      case JString(s) => (match fmt.parseGuid(s) case Some(g) => Ok(Some(Guid(g))) case None => Err(FormatError))
      case _ => Err(WrongValueKind)
    else Ok(None)
  }

  /**
    One pass of Read's loop, for the member `m`: the field values after
    assigning it. A member that names no field fails when the missing field
    is used (NullReferenceException). An object-valued member is read as a
    tagged nested value; the reader is then left inside that wrapper, so the
    members following its ValueObject are read as members of this object.
    An array given to a field that no branch reads is walked token by token
    in the same way: the members of the objects inside it are read as
    members of this object.
  */
  function ReadMember(fmt: Formats, reg: Registry, fs: seq<Field>, values: seq<Value>, m: Member): (r: Result<seq<Value>>)
    requires |values| == |fs|
    ensures r.Ok? ==> |r.value| == |fs|
    decreases m, 1
  {
    var idx := FieldIndex(fs, m.name);
    if m.value.JObject? then
      var nested :- ReadObject(fmt, reg, m.value.members);
      if idx.None? then Err(NullReference)
      else if !Assignable(nested, fs[idx.value].fieldType) then Err(ArgumentError)
      else ReadMembers(fmt, reg, fs, values[idx.value := nested], m.value.members[2..])
    else if idx.None? then Err(NullReference)
    else
      var v :- ReadFieldValue(fmt, reg, fs[idx.value], m.value);
      if v.Some? then Ok(values[idx.value := v.value])
      else if m.value.JArray? then ReadArrayItems(fmt, reg, fs, values, m.value.items)
      else Ok(values)
  }

  /**
    Read's loop inside an array that no branch consumed: the start and end
    tokens and the scalars are skipped, and every object's members are read
    as members of the outer object.
  */
  function ReadArrayItems(fmt: Formats, reg: Registry, fs: seq<Field>, values: seq<Value>, items: seq<Json>): (r: Result<seq<Value>>)
    requires |values| == |fs|
    ensures r.Ok? ==> |r.value| == |fs|
    decreases items
  {
    if items == [] then Ok(values)
    else
      var next :-
        match items[0]
        case JObject(ms) => ReadMembers(fmt, reg, fs, values, ms)
        case JArray(inner) => ReadArrayItems(fmt, reg, fs, values, inner)
        case _ => Ok(values);
      ReadArrayItems(fmt, reg, fs, next, items[1..])
  }

  /** Read's loop over the members of the object, in order. */
  function ReadMembers(fmt: Formats, reg: Registry, fs: seq<Field>, values: seq<Value>, ms: seq<Member>): (r: Result<seq<Value>>)
    requires |values| == |fs|
    ensures r.Ok? ==> |r.value| == |fs|
    decreases ms
  {
    if ms == [] then Ok(values)
    else
      var next :- ReadMember(fmt, reg, fs, values, ms[0]);
      ReadMembers(fmt, reg, fs, next, ms[1..])
  }

  /**
    ReadObject, ReadType and ReadValue followed by JsonSerializer.Deserialize:
    a nested object must open with "TypeDiscriminator": name and then
    "ValueObject": {...} (JsonException otherwise). The discriminator that
    resolves to nothing makes Deserialize throw ArgumentNullException. The
    bytes ReadValue collects are the tokens' ValueSpans, which keep neither
    quotes, colons nor commas, so they form JSON only when what lies between
    the braces is blank (see SplicesToEmptyObject); that text is the empty
    object, which is then deserialized as the named type.
  */
  function ReadObject(fmt: Formats, reg: Registry, wms: seq<Member>): (r: Result<Value>)
    ensures r.Ok? ==> |wms| >= 2 && wms[1].value.JObject? && SplicesToEmptyObject(wms[1].value.members)
    decreases wms, 0
  {
    if |wms| == 0 || wms[0].name != TypePropertyName || !wms[0].value.JString? then Err(JsonInvalid)
    else if |wms| < 2 || wms[1].name != ValuePropertyName || !wms[1].value.JObject? then Err(JsonInvalid)
    else
      match Resolve(reg, wms[0].value.s)
      case None => Err(ArgumentNull)
      case Some(t) =>
        if !SplicesToEmptyObject(wms[1].value.members) then Err(JsonInvalid)
        else EmptyObjectRead(reg, t)
  }

  /**
    JsonSerializer.Deserialize("{}", t, options): the default instance of an
    IJsonSerializable type, JsonException for a list or a scalar; the
    reflection-based readers are not modelled.
  */
  function EmptyObjectRead(reg: Registry, t: RType): (r: Result<Value>)
    // only an IJsonSerializable type reads "{}", as its default instance
    ensures r.Ok? ==> && r.value.Aggregate? && r.value.aggregateType in reg && reg[r.value.aggregateType].AggregateInfo?
                      && r.value.fields == reg[r.value.aggregateType].defaults
    ensures t.TAggregate? && t.name in reg && reg[t.name].AggregateInfo? && |reg[t.name].defaults| == |reg[t.name].fields|
            ==> r == Ok(Aggregate(t.name, reg[t.name].defaults))
  {
    match t
    case TAggregate(n) =>
      if !(n in reg && reg[n].AggregateInfo?) then Err(Unmodelled(UnregisteredObjectType))
      else if |reg[n].defaults| != |reg[n].fields| then Err(Unmodelled(MismatchedDefaults))
      else Ok(Aggregate(n, reg[n].defaults))
    case TNullable(u) => EmptyObjectRead(reg, u)
    case TEnumerable(n) => Err(Unmodelled(ReflectionRead(n)))
    case TOther(n, _) => Err(Unmodelled(ReflectionRead(n)))
    case _ => Err(JsonInvalid)
  }

  /**
    The members of a ValueObject whose spliced ValueSpans form JSON: between
    "{" and "}" only the names and the string values' raw text appear, and
    the reader admits no raw tab or line break inside a string, so each name
    and each value must be a string of spaces (a number, literal, object or
    array contributes a character JSON does not allow there). Strings are
    taken to be written without escapes.
  */
  predicate SplicesToEmptyObject(ms: seq<Member>) {
    forall i :: 0 <= i < |ms| ==> Blank(ms[i].name) && ms[i].value.JString? && Blank(ms[i].value.s)
  }

  predicate Blank(s: string) {
    forall k :: 0 <= k < |s| ==> s[k] == ' '
  }

  /**
    JsonSerializableConverter.Read: rejects anything but an object, starts
    from the type's default instance and assigns the fields the members name.
  */
  function ConverterRead(fmt: Formats, reg: Registry, j: Json, typeName: string): (r: Result<Value>)
    ensures !j.JObject? ==> r == Err(JsonInvalid)
    ensures r.Ok? ==> && r.value.Aggregate? && r.value.aggregateType == typeName
                      && typeName in reg && reg[typeName].AggregateInfo?
                      && |r.value.fields| == |reg[typeName].fields|
    // an object without members is the default instance
    ensures j == JObject([]) && typeName in reg && reg[typeName].AggregateInfo?
            && |reg[typeName].defaults| == |reg[typeName].fields|
            ==> r == Ok(Aggregate(typeName, reg[typeName].defaults))
    decreases j, 0
  {
    if !j.JObject? then Err(JsonInvalid)
    else if !(typeName in reg && reg[typeName].AggregateInfo?) then Err(Unmodelled(UnregisteredObjectType))
    else
      var info := reg[typeName];
      if |info.defaults| != |info.fields| then Err(Unmodelled(MismatchedDefaults))
      else
        var vs :- ReadMembers(fmt, reg, info.fields, info.defaults, j.members);
        Ok(Aggregate(typeName, vs))
  }

  /**
    JsonSerializer.Deserialize(json, t, options) with the converter registered:
    null for a null token and a type that admits it, the converter for
    IJsonSerializable types, arrays for lists (each element read as the list's
    element type), numbers for enums, and JsonException on any other mismatch.
  */
  function StjRead(fmt: Formats, reg: Registry, j: Json, t: RType): (r: Result<Value>)
    // the value read has the type asked for, or is null where the type admits null
    ensures r.Ok? && !t.TNullable? ==> Assignable(r.value, t)
    ensures r.Ok? && r.value.Null? ==> CanBeNull(t)
    decreases j, 1, t
  {
    match t
    case TAggregate(n) => if j.JNull? then Ok(Null) else ConverterRead(fmt, reg, j, n)
    case TList(n) =>
      (match j
       case JNull => Ok(Null)
       case JArray(items) =>
         if !(n in reg && reg[n].ListInfo?) then Err(Unmodelled(UnregisteredListType))
         else
           var vs :- StjReadItems(fmt, reg, items, reg[n].element);
           Ok(List(n, vs))
       case _ => Err(JsonInvalid))
    case TEnum(n) => if j.JNumber? && j.scale == 0 && InInt32(j.mantissa) then Ok(Enum(n, j.mantissa)) else Err(JsonInvalid)
    case TInt16 => if j.JNumber? && j.scale == 0 && InInt16(j.mantissa) then Ok(Int16(j.mantissa)) else Err(JsonInvalid)
    case TInt32 => if j.JNumber? && j.scale == 0 && InInt32(j.mantissa) then Ok(Int32(j.mantissa)) else Err(JsonInvalid)
    case TInt64 => if j.JNumber? && j.scale == 0 && InInt64(j.mantissa) then Ok(Int64(j.mantissa)) else Err(JsonInvalid)
    case TDecimal =>
      if j.JNumber? && IsDecimal(j.mantissa, j.scale) then Ok(Decimal(DecimalRep(j.mantissa, j.scale))) else Err(JsonInvalid)
    case TString => (match j case JString(s) => Ok(Text(s)) case JNull => Ok(Null) case _ => Err(JsonInvalid))
    case TBool => (match j case JBool(b) => Ok(Bool(b)) case _ => Err(JsonInvalid))
    case TDateTime =>
      (match j
       case JString(s) => (match fmt.parseDateTime(s) case Some(d) => Ok(DateTime(d)) case None => Err(JsonInvalid))
       case _ => Err(JsonInvalid))
    case TGuid =>
      (match j
       case JString(s) => (match fmt.parseGuid(s) case Some(g) => Ok(Guid(g)) case None => Err(JsonInvalid))
       case _ => Err(JsonInvalid))
    case TNullable(u) => if j.JNull? then Ok(Null) else StjRead(fmt, reg, j, u)
    case TEnumerable(n) => if j.JNull? then Ok(Null) else Err(Unmodelled(ReflectionRead(n)))
    case TOther(n, vt) =>
      if j.JNull? then (if vt then Err(JsonInvalid) else Ok(Null))
      else Err(Unmodelled(ReflectionRead(n)))
  }

  function StjReadItems(fmt: Formats, reg: Registry, items: seq<Json>, element: RType): (r: Result<seq<Value>>)
    ensures r.Ok? ==> |r.value| == |items|
    decreases items
  {
    if items == [] then Ok([])
    else
      var v :- StjRead(fmt, reg, items[0], element);
      var rest :- StjReadItems(fmt, reg, items[1..], element);
      Ok([v] + rest)
  }

  // ---------------------------------------------------------------------
  // The converter's two loops
  // ---------------------------------------------------------------------

  /** JsonSerializableConverter.Write: writes the object's fields one after the other. */
  method Write(fmt: Formats, reg: Registry, value: Value) returns (r: Result<Json>)
    requires value.Aggregate?
    ensures r == ConverterWrite(fmt, reg, value)
    ensures r.Ok? ==> r.value.JObject?
  {
    var n := value.aggregateType;
    if !(n in reg && reg[n].AggregateInfo?) {
      return Err(Unmodelled(UnregisteredObjectType));
    }
    var fs := reg[n].fields;
    var vs := value.fields;
    if |fs| != |vs| {
      return Err(Unmodelled(MismatchedFields));
    }
    var members: seq<Member> := [];
    var i := 0;
    assert fs[0..] == fs && vs[0..] == vs;
    var whole := WriteFields(fmt, reg, fs, vs);
    assert whole.Ok? ==> [] + whole.value == whole.value;
    while i < |fs|
      invariant 0 <= i <= |fs|
      invariant WriteFields(fmt, reg, fs, vs) == Prefixed(members, WriteFields(fmt, reg, fs[i..], vs[i..]))
    {
      assert fs[i..][1..] == fs[i + 1..] && vs[i..][1..] == vs[i + 1..];
      var m := WriteField(fmt, reg, fs[i], vs[i]);
      ghost var rest := WriteFields(fmt, reg, fs[i + 1..], vs[i + 1..]);
      assert WriteFields(fmt, reg, fs[i..], vs[i..]) ==
        if m.Err? then Err(m.error) else if rest.Err? then rest
        else Ok(if m.value.Some? then [m.value.value] + rest.value else rest.value);
      if m.Err? {
        return Err(m.error);
      }
      if m.value.Some? {
        assert rest.Ok? ==> members + ([m.value.value] + rest.value) == (members + [m.value.value]) + rest.value;
        members := members + [m.value.value];
      }
      i := i + 1;
    }
    assert members + [] == members;
    return Ok(JObject(members));
  }

  /**
    JsonSerializableConverter.Read: refuses anything but an object, then
    assigns fields of a default instance member by member.
  */
  method Read(fmt: Formats, reg: Registry, j: Json, typeName: string) returns (r: Result<Value>)
    ensures r == ConverterRead(fmt, reg, j, typeName)
    ensures !j.JObject? ==> r == Err(JsonInvalid)
    ensures r.Ok? ==> r.value.Aggregate? && r.value.aggregateType == typeName
  {
    if !j.JObject? {
      return Err(JsonInvalid);
    }
    if !(typeName in reg && reg[typeName].AggregateInfo?) {
      return Err(Unmodelled(UnregisteredObjectType));
    }
    var fs := reg[typeName].fields;
    var defaults := reg[typeName].defaults;
    if |defaults| != |fs| {
      return Err(Unmodelled(MismatchedDefaults));
    }
    var ms := j.members;
    var values := defaults;
    var i := 0;
    assert ms[0..] == ms;
    while i < |ms|
      invariant 0 <= i <= |ms| && |values| == |fs|
      invariant ReadMembers(fmt, reg, fs, defaults, ms) == ReadMembers(fmt, reg, fs, values, ms[i..])
    {
      assert ms[i..][1..] == ms[i + 1..];
      var next := ReadMember(fmt, reg, fs, values, ms[i]);
      if next.Err? {
        return Err(next.error);
      }
      values := next.value;
      i := i + 1;
    }
    return Ok(Aggregate(typeName, values));
  }

  // ---------------------------------------------------------------------
  // What Read assigns
  // ---------------------------------------------------------------------

  /**
    The member names Read's loop sees: those of the object's own members and,
    inside a tagged nested value, those following its ValueObject.
  */
  function MentionedNames(ms: seq<Member>): set<string>
    decreases ms
  {
    if ms == [] then {} else MemberNames(ms[0]) + MentionedNames(ms[1..])
  }

  function MemberNames(m: Member): set<string>
    decreases m
  {
    {m.name}
    + (if m.value.JObject? && |m.value.members| >= 2 then MentionedNames(m.value.members[2..])
       else if m.value.JArray? then ItemNames(m.value.items)
       else {})
  }

  /** The member names of the objects inside an array, at any depth. */
  function ItemNames(items: seq<Json>): set<string>
    decreases items
  {
    if items == [] then {}
    else
      (match items[0]
       case JObject(ms) => MentionedNames(ms)
       case JArray(inner) => ItemNames(inner)
       case _ => {})
      + ItemNames(items[1..])
  }

  /** Read sets only the fields named in the payload: every other field keeps its default. */
  lemma {:induction false} ReadMembersKeepsUnnamed(fmt: Formats, reg: Registry, fs: seq<Field>, values: seq<Value>, ms: seq<Member>, k: nat)
    requires |values| == |fs| && k < |fs|
    requires fs[k].name !in MentionedNames(ms)
    requires ReadMembers(fmt, reg, fs, values, ms).Ok?
    ensures ReadMembers(fmt, reg, fs, values, ms).value[k] == values[k]
    decreases ms
  {
    if ms != [] {
      var next := ReadMember(fmt, reg, fs, values, ms[0]);
      ReadMemberKeepsUnnamed(fmt, reg, fs, values, ms[0], k);
      ReadMembersKeepsUnnamed(fmt, reg, fs, next.value, ms[1..], k);
    }
  }

  lemma {:induction false} ReadMemberKeepsUnnamed(fmt: Formats, reg: Registry, fs: seq<Field>, values: seq<Value>, m: Member, k: nat)
    requires |values| == |fs| && k < |fs|
    requires fs[k].name !in MemberNames(m)
    requires ReadMember(fmt, reg, fs, values, m).Ok?
    ensures ReadMember(fmt, reg, fs, values, m).value[k] == values[k]
    decreases m
  {
    var idx := FieldIndex(fs, m.name);
    if m.value.JObject? {
      var nested := ReadObject(fmt, reg, m.value.members);
      ReadMembersKeepsUnnamed(fmt, reg, fs, values[idx.value := nested.value], m.value.members[2..], k);
    } else if m.value.JArray? && ReadFieldValue(fmt, reg, fs[idx.value], m.value).value.None? {
      ReadArrayItemsKeepsUnnamed(fmt, reg, fs, values, m.value.items, k);
    }
  }

  lemma {:induction false} ReadArrayItemsKeepsUnnamed(fmt: Formats, reg: Registry, fs: seq<Field>, values: seq<Value>, items: seq<Json>, k: nat)
    requires |values| == |fs| && k < |fs|
    requires fs[k].name !in ItemNames(items)
    requires ReadArrayItems(fmt, reg, fs, values, items).Ok?
    ensures ReadArrayItems(fmt, reg, fs, values, items).value[k] == values[k]
    decreases items
  {
    if items != [] {
      match items[0]
      case JObject(ms) =>
        ReadMembersKeepsUnnamed(fmt, reg, fs, values, ms, k);
        var next := ReadMembers(fmt, reg, fs, values, ms);
        ReadArrayItemsKeepsUnnamed(fmt, reg, fs, next.value, items[1..], k);
      case JArray(inner) =>
        ReadArrayItemsKeepsUnnamed(fmt, reg, fs, values, inner, k);
        var next := ReadArrayItems(fmt, reg, fs, values, inner);
        ReadArrayItemsKeepsUnnamed(fmt, reg, fs, next.value, items[1..], k);
      case _ =>
        ReadArrayItemsKeepsUnnamed(fmt, reg, fs, values, items[1..], k);
    }
  }

  /** Read succeeds only when every member it sees names a field of the type. */
  lemma {:induction false} ReadMembersNeedsKnownNames(fmt: Formats, reg: Registry, fs: seq<Field>, values: seq<Value>, ms: seq<Member>)
    requires |values| == |fs|
    requires ReadMembers(fmt, reg, fs, values, ms).Ok?
    ensures forall i :: 0 <= i < |ms| ==> FieldIndex(fs, ms[i].name).Some?
    decreases ms
  {
    if ms != [] {
      var next := ReadMember(fmt, reg, fs, values, ms[0]);
      ReadMembersNeedsKnownNames(fmt, reg, fs, next.value, ms[1..]);
      assert forall i :: 1 <= i < |ms| ==> ms[i] == ms[1..][i - 1];
    }
  }

  /**
    A member inside an array that no branch reads is taken as a member of the
    outer object: {"number":1,"cardImage":[{"number":5}]} leaves number 5.
  */
  lemma ArrayMembersReadAsOuter(fmt: Formats, reg: Registry)
    ensures var fs := [Field("number", TInt32), Field("cardImage", TAggregate("CardImage"))];
      ReadMembers(fmt, reg, fs, [Int32(0), Null],
                  [Member("number", JNumber(1, 0)), Member("cardImage", JArray([JObject([Member("number", JNumber(5, 0))])]))])
        == Ok([Int32(5), Null])
  {
    var fs := [Field("number", TInt32), Field("cardImage", TAggregate("CardImage"))];
    var five := Member("number", JNumber(5, 0));
    var outer := [Member("number", JNumber(1, 0)), Member("cardImage", JArray([JObject([five])]))];
    assert FieldIndex(fs, "number") == Some(0);
    assert FieldIndex(fs, "cardImage") == Some(1);
    var a, b := [Int32(1), Null], [Int32(5), Null];
    ReadFlatMember(fmt, reg, fs, [Int32(0), Null], 0, JNumber(1, 0));
    assert [Int32(0), Null][0 := Int32(1)] == a;
    assert ReadMember(fmt, reg, fs, [Int32(0), Null], outer[0]) == Ok(a);
    ReadFlatMember(fmt, reg, fs, a, 0, JNumber(5, 0));
    assert a[0 := Int32(5)] == b;
    assert [five][1..] == [] && [JObject([five])][1..] == [];
    assert ReadMembers(fmt, reg, fs, a, [five]) == Ok(b);
    assert ReadArrayItems(fmt, reg, fs, a, [JObject([five])]) == Ok(b);
    ReadFlatMember(fmt, reg, fs, a, 1, JArray([JObject([five])]));
    assert ReadMember(fmt, reg, fs, a, outer[1]) == Ok(b);
    assert outer[1..][0] == outer[1] && outer[1..][1..] == [];
    assert ReadMembers(fmt, reg, fs, a, outer[1..]) == Ok(b);
  }

  /** {"cardImage":[{"zzz":0}]}: a name inside the array that is no field of the type fails as a missing field. */
  lemma ArrayMembersNeedFields(fmt: Formats, reg: Registry)
    ensures var fs := [Field("number", TInt32), Field("cardImage", TAggregate("CardImage"))];
      ReadMembers(fmt, reg, fs, [Int32(0), Null], [Member("cardImage", JArray([JObject([Member("zzz", JNumber(0, 0))])]))])
        == Err(NullReference)
  {
    var fs := [Field("number", TInt32), Field("cardImage", TAggregate("CardImage"))];
    assert FieldIndex(fs, "cardImage") == Some(1);
    assert FieldIndex(fs, "zzz") == None;
    ReadFlatMember(fmt, reg, fs, [Int32(0), Null], 1, JArray([JObject([Member("zzz", JNumber(0, 0))])]));
  }

  /**
    A ValueObject whose names and values are all blank strings splices to
    "{" and "}" around blanks, so it is read like the empty ValueObject; any
    other non-empty ValueObject gives text that is not JSON.
  */
  /** The reading of "{}" that ReadObject uses is JsonSerializer's own. */
  lemma {:induction false} EmptyObjectReadAgrees(fmt: Formats, reg: Registry, t: RType)
    ensures EmptyObjectRead(reg, t) == StjRead(fmt, reg, JObject([]), t)
  {
    if t.TNullable? {
      EmptyObjectReadAgrees(fmt, reg, t.underlying);
    }
  }

  lemma ReadBlankValueObject(fmt: Formats, reg: Registry, typeName: string, ms: seq<Member>, rest: seq<Member>)
    requires Resolve(reg, typeName).Some?
    ensures var tag := Member(TypePropertyName, JString(typeName));
      && (SplicesToEmptyObject(ms) ==>
            ReadObject(fmt, reg, [tag, Member(ValuePropertyName, JObject(ms))] + rest)
              == ReadObject(fmt, reg, [tag, Member(ValuePropertyName, JObject([]))] + rest))
      && (!SplicesToEmptyObject(ms) ==>
            ReadObject(fmt, reg, [tag, Member(ValuePropertyName, JObject(ms))] + rest) == Err(JsonInvalid))
  {
  }

  // ---------------------------------------------------------------------
  // Round trips
  // ---------------------------------------------------------------------

  /**
    The field values Write emits in a form that one of Read's branches
    assigns back: a non-null value of a Nullable<enum>, string, int, long,
    short, decimal, bool, DateTime or Guid field. Every other field (a null
    reference, a Nullable<int>, a nested IJsonSerializable written as text, ...)
    comes back with the default instance's value.
  */
  predicate FieldKept(t: RType, v: Value) {
    && !v.Null?
    && ((t.TNullable? && t.underlying.TEnum?) || t == TString || IsNumberField(t) || IsDecimalField(t)
        || t == TBool || t == TDateTime || t == TGuid)
  }

  /** No field is declared with a plain (non-Nullable) enum type; Read cannot assign one. */
  predicate NoPlainEnumFields(fs: seq<Field>) {
    forall i :: 0 <= i < |fs| ==> !fs[i].fieldType.TEnum?
  }

  ghost predicate NoPlainEnumFieldsIn(reg: Registry) {
    forall n | n in reg && reg[n].AggregateInfo? :: NoPlainEnumFields(reg[n].fields)
  }

  /** The values `base` with, from index `from` on, every kept field replaced by the value in `vs`. */
  function Restored(fs: seq<Field>, base: seq<Value>, vs: seq<Value>, from: nat): (r: seq<Value>)
    requires |fs| == |base| == |vs|
    ensures |r| == |fs|
  {
    seq(|fs|, k requires 0 <= k < |fs| => if from <= k && FieldKept(fs[k].fieldType, vs[k]) then vs[k] else base[k])
  }

  /** The object Read rebuilds from what Write wrote for `v`. */
  function AggregateRestored(reg: Registry, v: Value): Value
    requires v.Aggregate?
  {
    var n := v.aggregateType;
    if n in reg && reg[n].AggregateInfo? && |reg[n].fields| == |reg[n].defaults| == |v.fields|
    then Aggregate(n, Restored(reg[n].fields, reg[n].defaults, v.fields, 0))
    else v
  }

  /** The value JsonSerializer reads back from what it wrote for `v`: objects and lists of objects restored as above. */
  function StjRestored(reg: Registry, v: Value): Value
    decreases v
  {
    match v
    case Aggregate(_, _) => AggregateRestored(reg, v)
    case List(n, items) => List(n, RestoredItems(reg, items))
    case _ => v
  }

  function RestoredItems(reg: Registry, items: seq<Value>): (r: seq<Value>)
    ensures |r| == |items|
    decreases items
  {
    if items == [] then [] else [StjRestored(reg, items[0])] + RestoredItems(reg, items[1..])
  }

  lemma FieldIndexOfDistinct(fs: seq<Field>, i: nat)
    requires i < |fs| && DistinctFieldNames(fs)
    ensures FieldIndex(fs, fs[i].name) == Some(i)
  {
  }

  /** A member whose value is not an object, read into the field it names; an unread array is walked. */
  lemma ReadFlatMember(fmt: Formats, reg: Registry, fs: seq<Field>, values: seq<Value>, i: nat, j: Json)
    requires i < |fs| && |values| == |fs| && FieldIndex(fs, fs[i].name) == Some(i) && !j.JObject?
    ensures var r := ReadFieldValue(fmt, reg, fs[i], j);
      ReadMember(fmt, reg, fs, values, Member(fs[i].name, j))
        == if r.Err? then Err(r.error)
           else if r.value.Some? then Ok(values[i := r.value.value])
           else if j.JArray? then ReadArrayItems(fmt, reg, fs, values, j.items)
           else Ok(values)
  {
  }

  /** What Write emits for one well-typed field: nothing, or a member named after it and holding no object. */
  lemma WriteFieldShape(fmt: Formats, reg: Registry, f: Field, v: Value)
    requires Assignable(v, f.fieldType) && WellTyped(reg, v)
    requires WriteField(fmt, reg, f, v).Ok?
    ensures var w := WriteField(fmt, reg, f, v).value;
      && (w.Some? ==> w.value.name == f.name && !w.value.value.JObject? && !w.value.value.JArray?)
      && (w.None? ==> !FieldKept(f.fieldType, v))
  {
    match v
    case Null =>
    case Bool(_) =>
    case Int16(_) =>
    case Int32(_) =>
    case Int64(_) =>
    case Decimal(_) =>
    case Text(_) =>
    case Guid(_) =>
    case DateTime(_) =>
    case Enum(_, _) =>
    case Aggregate(_, _) =>
    case List(_, _) =>
    case Opaque(_) =>
  }

  /** One field: what Write emits for it, Read assigns back exactly when the field is kept. */
  lemma WriteFieldThenRead(fmt: Formats, reg: Registry, fs: seq<Field>, values: seq<Value>, i: nat, v: Value)
    requires Coherent(fmt) && ValidRegistry(reg)
    requires i < |fs| && |values| == |fs| && DistinctFieldNames(fs) && !fs[i].fieldType.TEnum?
    requires Assignable(v, fs[i].fieldType) && WellTyped(reg, v)
    requires WriteField(fmt, reg, fs[i], v).Ok?
    ensures var w := WriteField(fmt, reg, fs[i], v).value;
      && (w.Some? ==>
            && w.value.name == fs[i].name && !w.value.value.JObject?
            && ReadMember(fmt, reg, fs, values, w.value) == Ok(if FieldKept(fs[i].fieldType, v) then values[i := v] else values))
      && (w.None? ==> !FieldKept(fs[i].fieldType, v))
  {
    FieldIndexOfDistinct(fs, i);
    WriteFieldShape(fmt, reg, fs[i], v);
    var w := WriteField(fmt, reg, fs[i], v).value;
    if w.Some? {
      ReadFlatMember(fmt, reg, fs, values, i, w.value.value);
      WrittenFieldRead(fmt, reg, fs[i], v);
    }
  }

  /** The value Write emits for one field, given to the branch of Read that field selects. */
  lemma WrittenFieldRead(fmt: Formats, reg: Registry, f: Field, v: Value)
    requires Coherent(fmt) && ValidRegistry(reg) && !f.fieldType.TEnum?
    requires Assignable(v, f.fieldType) && WellTyped(reg, v)
    requires WriteField(fmt, reg, f, v).Ok? && WriteField(fmt, reg, f, v).value.Some?
    ensures ReadFieldValue(fmt, reg, f, WriteField(fmt, reg, f, v).value.value.value)
      == Ok(if FieldKept(f.fieldType, v) then Some(v) else None)
  {
    var t := f.fieldType;
    match v
    case Enum(n, k) =>
      EnumNameRoundTrip(EnumMembers(reg, n), k);
    case Aggregate(n, _) =>
      var j := ConverterWrite(fmt, reg, v).value;
      assert WriteField(fmt, reg, f, v).value.value.value == JString(fmt.printJson(j));
    case _ =>
  }

  /** Write's members from field `i` on, read into `acc`: the kept fields from `i` on are assigned, nothing else. */
  lemma {:induction false} WriteFieldsThenRead(fmt: Formats, reg: Registry, fs: seq<Field>, vs: seq<Value>, acc: seq<Value>, i: nat)
    requires Coherent(fmt) && ValidRegistry(reg)
    requires |fs| == |vs| == |acc| && i <= |fs| && DistinctFieldNames(fs) && NoPlainEnumFields(fs)
    requires forall k :: i <= k < |fs| ==> Assignable(vs[k], fs[k].fieldType) && WellTyped(reg, vs[k])
    requires WriteFields(fmt, reg, fs[i..], vs[i..]).Ok?
    ensures ReadMembers(fmt, reg, fs, acc, WriteFields(fmt, reg, fs[i..], vs[i..]).value) == Ok(Restored(fs, acc, vs, i))
    decreases |fs| - i
  {
    if i == |fs| {
      assert Restored(fs, acc, vs, i) == acc;
    } else {
      assert fs[i..][1..] == fs[i + 1..] && vs[i..][1..] == vs[i + 1..];
      var w := WriteField(fmt, reg, fs[i], vs[i]).value;
      var rest := WriteFields(fmt, reg, fs[i + 1..], vs[i + 1..]).value;
      WriteFieldThenRead(fmt, reg, fs, acc, i, vs[i]);
      var acc' := if FieldKept(fs[i].fieldType, vs[i]) then acc[i := vs[i]] else acc;
      WriteFieldsThenRead(fmt, reg, fs, vs, acc', i + 1);
      assert Restored(fs, acc', vs, i + 1) == Restored(fs, acc, vs, i);
      if w.Some? {
        var ms := [w.value] + rest;
        assert ms[0] == w.value && ms[1..] == rest;
        assert ReadMembers(fmt, reg, fs, acc, ms) == ReadMembers(fmt, reg, fs, acc', rest);
      }
    }
  }

  /**
    Read(Write(v)) for an IJsonSerializable object: the kept fields come back
    as they were written and every other field as the default instance has it.
  */
  lemma ConverterRoundTrip(fmt: Formats, reg: Registry, v: Value)
    requires Coherent(fmt) && ValidRegistry(reg) && NoPlainEnumFieldsIn(reg)
    requires v.Aggregate? && WellTyped(reg, v)
    requires ConverterWrite(fmt, reg, v).Ok?
    ensures ConverterRead(fmt, reg, ConverterWrite(fmt, reg, v).value, v.aggregateType) == Ok(AggregateRestored(reg, v))
  {
    var n := v.aggregateType;
    var fs := reg[n].fields;
    assert fs[0..] == fs && v.fields[0..] == v.fields;
    WriteFieldsThenRead(fmt, reg, fs, v.fields, reg[n].defaults, 0);
  }

  /**
    A field declared with a plain (non-Nullable) enum type is written as the
    member's name, but Read hands Nullable.GetUnderlyingType's null to
    Enum.Parse: reading the members written from field `i` on fails with
    ArgumentNullException once such a field is reached.
  */
  lemma {:induction false} WriteFieldsThenReadPlainEnum(fmt: Formats, reg: Registry, fs: seq<Field>, vs: seq<Value>, acc: seq<Value>, i: nat)
    requires Coherent(fmt) && ValidRegistry(reg)
    requires |fs| == |vs| == |acc| && i <= |fs| && DistinctFieldNames(fs)
    requires exists e :: i <= e < |fs| && fs[e].fieldType.TEnum?
    requires forall k :: i <= k < |fs| ==> Assignable(vs[k], fs[k].fieldType) && WellTyped(reg, vs[k])
    requires WriteFields(fmt, reg, fs[i..], vs[i..]).Ok?
    ensures ReadMembers(fmt, reg, fs, acc, WriteFields(fmt, reg, fs[i..], vs[i..]).value) == Err(ArgumentNull)
    decreases |fs| - i
  {
    assert fs[i..][1..] == fs[i + 1..] && vs[i..][1..] == vs[i + 1..];
    var w := WriteField(fmt, reg, fs[i], vs[i]).value;
    var rest := WriteFields(fmt, reg, fs[i + 1..], vs[i + 1..]).value;
    if fs[i].fieldType.TEnum? {
      FieldIndexOfDistinct(fs, i);
      assert vs[i].Enum?;
      var ms := [w.value] + rest;
      assert ms[0] == w.value;
      ReadFlatMember(fmt, reg, fs, acc, i, w.value.value);
    } else {
      WriteFieldThenRead(fmt, reg, fs, acc, i, vs[i]);
      var acc' := if FieldKept(fs[i].fieldType, vs[i]) then acc[i := vs[i]] else acc;
      WriteFieldsThenReadPlainEnum(fmt, reg, fs, vs, acc', i + 1);
      if w.Some? {
        var ms := [w.value] + rest;
        assert ms[0] == w.value && ms[1..] == rest;
      }
    }
  }

  /**
    The case the round trips exclude: an object whose type declares a plain
    enum field is written, but reading it back throws ArgumentNullException.
  */
  lemma ConverterReadRefusesPlainEnum(fmt: Formats, reg: Registry, v: Value)
    requires Coherent(fmt) && ValidRegistry(reg)
    requires v.Aggregate? && WellTyped(reg, v) && !NoPlainEnumFields(reg[v.aggregateType].fields)
    requires ConverterWrite(fmt, reg, v).Ok?
    ensures ConverterRead(fmt, reg, ConverterWrite(fmt, reg, v).value, v.aggregateType) == Err(ArgumentNull)
    ensures StjRead(fmt, reg, StjWrite(fmt, reg, v).value, TypeOf(v)) == Err(ArgumentNull)
  {
    var n := v.aggregateType;
    var fs := reg[n].fields;
    assert fs[0..] == fs && v.fields[0..] == v.fields;
    WriteFieldsThenReadPlainEnum(fmt, reg, fs, v.fields, reg[n].defaults, 0);
    ObjectsGoThroughConverter(fmt, reg, v, ConverterWrite(fmt, reg, v).value);
  }

  /**
    JsonSerializer reads back what it wrote, as the type of the value written:
    scalars and enums unchanged, objects and lists of objects as StjRestored says.
  */
  lemma {:induction false} StjRoundTrip(fmt: Formats, reg: Registry, v: Value)
    requires Coherent(fmt) && ValidRegistry(reg) && NoPlainEnumFieldsIn(reg)
    requires !v.Null? && WellTyped(reg, v)
    requires StjWrite(fmt, reg, v).Ok?
    ensures StjRead(fmt, reg, StjWrite(fmt, reg, v).value, TypeOf(v)) == Ok(StjRestored(reg, v))
    decreases v, 1
  {
    if v.Aggregate? {
      StjAggregateRoundTrip(fmt, reg, v);
    } else if v.List? {
      StjListRoundTrip(fmt, reg, v);
    } else {
      StjScalarRoundTrip(fmt, reg, v);
      assert StjRestored(reg, v) == v;
    }
  }

  lemma StjAggregateRoundTrip(fmt: Formats, reg: Registry, v: Value)
    requires Coherent(fmt) && ValidRegistry(reg) && NoPlainEnumFieldsIn(reg)
    requires v.Aggregate? && WellTyped(reg, v)
    requires StjWrite(fmt, reg, v).Ok?
    ensures StjRead(fmt, reg, StjWrite(fmt, reg, v).value, TypeOf(v)) == Ok(StjRestored(reg, v))
  {
    var j := ConverterWrite(fmt, reg, v).value;
    ObjectsGoThroughConverter(fmt, reg, v, j);
    ConverterRoundTrip(fmt, reg, v);
    assert StjRestored(reg, v) == AggregateRestored(reg, v);
  }

  /** JsonSerializer hands an IJsonSerializable object to the converter both ways. */
  lemma ObjectsGoThroughConverter(fmt: Formats, reg: Registry, v: Value, j: Json)
    requires v.Aggregate? && ConverterWrite(fmt, reg, v) == Ok(j)
    ensures StjWrite(fmt, reg, v) == Ok(j) && TypeOf(v) == TAggregate(v.aggregateType)
    ensures StjRead(fmt, reg, j, TAggregate(v.aggregateType)) == ConverterRead(fmt, reg, j, v.aggregateType)
  {
  }

  lemma {:induction false} StjListRoundTrip(fmt: Formats, reg: Registry, v: Value)
    requires Coherent(fmt) && ValidRegistry(reg) && NoPlainEnumFieldsIn(reg)
    requires v.List? && WellTyped(reg, v)
    requires StjWrite(fmt, reg, v).Ok?
    ensures StjRead(fmt, reg, StjWrite(fmt, reg, v).value, TypeOf(v)) == Ok(StjRestored(reg, v))
    decreases v, 0
  {
    var e := reg[v.listType].element;
    var js := StjWriteItems(fmt, reg, v.items).value;
    assert StjWrite(fmt, reg, v).value == JArray(js);
    forall i | 0 <= i < |v.items| ensures ItemRoundTrips(fmt, reg, e, v.items[i]) {
      StjItemRoundTrip(fmt, reg, e, v.items[i]);
    }
    StjItemsRoundTrip(fmt, reg, v.items, e);
    StjReadList(fmt, reg, v.listType, js);
    assert StjRestored(reg, v) == List(v.listType, RestoredItems(reg, v.items));
  }

  /** JsonSerializer reads a JSON array as a registered List<T> element by element. */
  lemma StjReadList(fmt: Formats, reg: Registry, n: string, js: seq<Json>)
    requires n in reg && reg[n].ListInfo?
    ensures StjRead(fmt, reg, JArray(js), TList(n))
      == match StjReadItems(fmt, reg, js, reg[n].element)
         case Ok(vs) => Ok(List(n, vs))
         case Err(e) => Err(e)
  {
  }

  /** One element of a list of `e`: null reads back as null, anything else as StjRoundTrip says. */
  lemma {:induction false} StjItemRoundTrip(fmt: Formats, reg: Registry, e: RType, x: Value)
    requires Coherent(fmt) && ValidRegistry(reg) && NoPlainEnumFieldsIn(reg)
    requires WellTyped(reg, x) && Assignable(x, e) && KnownType(reg, e)
    ensures ItemRoundTrips(fmt, reg, e, x)
    decreases x, 2
  {
    if !x.Null? && StjWrite(fmt, reg, x).Ok? {
      if e.TNullable? {
        assert e.underlying == TypeOf(x);
      }
      StjRoundTrip(fmt, reg, x);
    }
  }

  lemma StjScalarRoundTrip(fmt: Formats, reg: Registry, v: Value)
    requires Coherent(fmt)
    requires !v.Null? && !v.Aggregate? && !v.List?
    requires StjWrite(fmt, reg, v).Ok?
    ensures StjRead(fmt, reg, StjWrite(fmt, reg, v).value, TypeOf(v)) == Ok(v)
  {
  }

  /** What StjRoundTrip proves of one element of a list of `e`. */
  ghost predicate ItemRoundTrips(fmt: Formats, reg: Registry, e: RType, x: Value) {
    StjWrite(fmt, reg, x).Ok? ==> StjRead(fmt, reg, StjWrite(fmt, reg, x).value, e) == Ok(StjRestored(reg, x))
  }

  lemma {:induction false} StjItemsRoundTrip(fmt: Formats, reg: Registry, items: seq<Value>, e: RType)
    requires forall i :: 0 <= i < |items| ==> ItemRoundTrips(fmt, reg, e, items[i])
    requires StjWriteItems(fmt, reg, items).Ok?
    ensures StjReadItems(fmt, reg, StjWriteItems(fmt, reg, items).value, e) == Ok(RestoredItems(reg, items))
    decreases items
  {
    if items != [] {
      var x := items[0];
      var js := StjWriteItems(fmt, reg, items).value;
      assert ItemRoundTrips(fmt, reg, e, x);
      assert forall i :: 0 <= i < |items[1..]| ==> ItemRoundTrips(fmt, reg, e, items[1..][i]) by {
        forall i | 0 <= i < |items[1..]| ensures ItemRoundTrips(fmt, reg, e, items[1..][i]) {
          assert items[1..][i] == items[i + 1];
        }
      }
      StjItemsRoundTrip(fmt, reg, items[1..], e);
      assert js[0] == StjWrite(fmt, reg, x).value && js[1..] == StjWriteItems(fmt, reg, items[1..]).value;
    }
  }
}
