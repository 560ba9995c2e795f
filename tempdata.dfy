/**
  CustomTempDataSerializer: the TempData provider's codec between the page's
  string-to-object dictionary and one JSON object. Scalars are stored as
  plain JSON values; enums, IJsonSerializable objects and lists are stored as
  {"TypeDiscriminator": type name, "ValueObject": ...} pairs.
*/
module CustomTempDataSerializer {
  import opened Wrappers
  import opened Json
  import opened ClrTypes
  import opened JsonSerializableConverter

  /**
    The byte[] handed to or returned by the serializer: the empty array, the
    UTF-8 text of a JSON document, or bytes that JsonDocument.Parse rejects.
  */
  datatype Bytes = NoBytes | Document(root: Json) | NotJson

  /** A dictionary entry, in the order the dictionary enumerates them. */
  type Entry = (string, Value)

  // ---------------------------------------------------------------------
  // Which types can be stored, and the error messages
  // ---------------------------------------------------------------------

  /**
    CanSerializeType: with Nullable<T> unwrapped, an enum, int, long, decimal,
    string, bool, DateTime, Guid, an IJsonSerializable type or an IEnumerable
    (a list, or any other collection).
  */
  predicate CanSerializeType(t: RType): (ok: bool)
    // refused: short, any type outside the list, and a Nullable of a Nullable
    ensures !ok <==> var u := if t.TNullable? then t.underlying else t; u == TInt16 || u.TOther? || u.TNullable?
    // Nullable<T> is accepted exactly when T is
    ensures t.TNullable? && !t.underlying.TNullable? ==> (ok <==> CanSerializeType(t.underlying))
  {
    var u := if t.TNullable? then t.underlying else t;
    || u.TEnum? || u == TInt32 || u == TInt64 || u == TDecimal || u == TString || u == TBool
    || u == TDateTime || u == TGuid || u.TAggregate? || u.TList? || u.TEnumerable?
  }

  /** The message of the serializer's own InvalidOperationException. */
  function RefusalMessage(r: Refusal): string {
    match r
    case CannotSerialize(valueType) => SerializePrefix + valueType + SerializeSuffix
    case CannotDeserialize(valueKind) => DeserializePrefix + valueKind + DeserializeSuffix
  }

  const SerializePrefix: string := "Can not " + "store value in TempData. " + "Can not serialize \""
  const SerializeSuffix: string := "\" ."
  const DeserializePrefix: string := "Can not " + "deserialize value " + "from TempData. Value type is \""
  const DeserializeSuffix: string := "\"."

  /** The two messages never coincide, and each names its type: the message determines the refusal. */
  lemma RefusalMessageInjective(r1: Refusal, r2: Refusal)
    requires RefusalMessage(r1) == RefusalMessage(r2)
    ensures r1 == r2
  {
    MessageKind(r1);
    MessageKind(r2);
    if r1.CannotSerialize? {
      Unframed(SerializePrefix, r1.valueType, r2.valueType, SerializeSuffix);
    } else {
      Unframed(DeserializePrefix, r1.valueKind, r2.valueKind, DeserializeSuffix);
    }
  }

  /** The ninth character tells the messages apart: "Can not store ..." and "Can not deserialize ...". */
  lemma MessageKind(r: Refusal)
    ensures |RefusalMessage(r)| > 8 && RefusalMessage(r)[8] == if r.CannotSerialize? then 's' else 'd'
  {
    var p := if r.CannotSerialize? then SerializePrefix else DeserializePrefix;
    var rest := if r.CannotSerialize? then r.valueType + SerializeSuffix else r.valueKind + DeserializeSuffix;
    assert RefusalMessage(r) == p + rest;
    var can := "Can not ";
    assert |can| == 8;
    if r.CannotSerialize? {
      assert SerializePrefix == can + ("store value in TempData. " + "Can not serialize \"");
    } else {
      assert DeserializePrefix == can + ("deserialize value " + "from TempData. Value type is \"");
    }
  }

  lemma Unframed(p: string, a: string, b: string, q: string)
    requires p + a + q == p + b + q
    ensures a == b
  {
    assert |a| == |b|;
    assert a == (p + a + q)[|p|..|p| + |a|];
    assert b == (p + b + q)[|p|..|p| + |b|];
  }

  function Tagged(typeName: string, value: Json): Json {
    JObject([Member(TypePropertyName, JString(typeName)), Member(ValuePropertyName, value)])
  }

  // ---------------------------------------------------------------------
  // Serialize
  // ---------------------------------------------------------------------

  /** WriteListToJson: each element as {"TypeDiscriminator": its own type, "ValueObject": its JSON as text}. */
  function ListJson(fmt: Formats, reg: Registry, items: seq<Value>): (r: Result<seq<Json>>)
    ensures r.Ok? ==> |r.value| == |items|
    ensures r.Ok? <==> forall i :: 0 <= i < |items| ==> !items[i].Null? && StjWrite(fmt, reg, items[i]).Ok?
    ensures r.Err? ==> !r.error.InvalidOperation?
  {
    if items == [] then Ok([])
    else if items[0].Null? then Err(NullReference)  // item.GetType() on a null element
    else
      var j :- StjWrite(fmt, reg, items[0]);
      var rest :- ListJson(fmt, reg, items[1..]);
      Ok([Tagged(FullName(TypeOf(items[0])), JString(fmt.printJson(j)))] + rest)
  }

  /**
    One pass of Serialize's loop: the member written for a dictionary entry,
    or None when the value matches none of the switch's cases.
  */
  function EntryJson(fmt: Formats, reg: Registry, key: string, v: Value): (r: Result<Option<Member>>)
    // the serializer's own InvalidOperationException is raised exactly for the types CanSerializeType refuses
    ensures !v.Null? ==> (!CanSerializeType(TypeOf(v)) <==> r == Err(InvalidOperation(CannotSerialize(FullName(TypeOf(v))))))
    ensures r.Err? && r.error.InvalidOperation? ==> !v.Null? && !CanSerializeType(TypeOf(v))
    // a value the switch accepts is always written, under its key
    ensures r.Ok? ==> r.value.Some? && r.value.value.name == key
  {
    if v.Null? then Ok(Some(Member(key, JNull)))
    else if !CanSerializeType(TypeOf(v)) then Err(InvalidOperation(CannotSerialize(FullName(TypeOf(v)))))
    else SwitchJson(fmt, reg, key, v)
  }

  /** The switch on the value's type, for a type CanSerializeType accepts. */
  function SwitchJson(fmt: Formats, reg: Registry, key: string, v: Value): (r: Result<Option<Member>>)
    requires !v.Null? && CanSerializeType(TypeOf(v))
    ensures r.Err? ==> !r.error.InvalidOperation?
    ensures r.Ok? ==> r.value.Some? && r.value.value.name == key
  {
    match v
    case Enum(n, k) => Ok(Some(Member(key, Tagged(FullName(TypeOf(v)), JString(EnumToString(EnumMembers(reg, n), k))))))
    case Text(s) => Ok(Some(Member(key, JString(s))))
    case Int32(i) => Ok(Some(Member(key, JNumber(i, 0))))
    case Int64(i) => Ok(Some(Member(key, JNumber(i, 0))))
    case Decimal(d) => Ok(Some(Member(key, JNumber(d.mantissa, d.scale))))
    case Bool(b) => Ok(Some(Member(key, JBool(b))))
    case DateTime(d) => Ok(Some(Member(key, JString(fmt.formatDateTime(d)))))
    case Guid(g) => Ok(Some(Member(key, JString(fmt.formatGuid(g)))))
    case Aggregate(_, _) =>
      var j :- StjWrite(fmt, reg, v);
      Ok(Some(Member(key, Tagged(FullName(TypeOf(v)), JString(fmt.printJson(j))))))
    case List(_, items) =>
      var js :- ListJson(fmt, reg, items);
      Ok(Some(Member(key, Tagged(FullName(TypeOf(v)), JArray(js)))))
    case Opaque(t) =>
      // another IEnumerable goes to JsonSerializer, whose reflection over it is not modelled
      Err(Unmodelled(ReflectionWrite(FullName(t))))
    case Int16(_) => Ok(None)
  }

  /** Serialize's loop over the entries. */
  function EntriesJson(fmt: Formats, reg: Registry, entries: seq<Entry>): (r: Result<seq<Member>>)
    ensures r.Ok? <==> forall i :: 0 <= i < |entries| ==> EntryJson(fmt, reg, entries[i].0, entries[i].1).Ok?
  {
    if entries == [] then Ok([])
    else
      var m :- EntryJson(fmt, reg, entries[0].0, entries[0].1);
      var rest :- EntriesJson(fmt, reg, entries[1..]);
      Ok(if m.Some? then [m.value] + rest else rest)
  }

  /** Serialize: the empty array for a null or empty dictionary, otherwise one JSON object. */
  function SerializedForm(fmt: Formats, reg: Registry, values: Option<seq<Entry>>): (r: Result<Bytes>)
    ensures values.None? || values == Some([]) ==> r == Ok(NoBytes)
    ensures r.Ok? && r.value != NoBytes ==> r.value.Document? && r.value.root.JObject?
  {
    if values.None? || values.value == [] then Ok(NoBytes)
    else
      var ms :- EntriesJson(fmt, reg, values.value);
      Ok(Document(JObject(ms)))
  }

  // ---------------------------------------------------------------------
  // Deserialize
  // ---------------------------------------------------------------------

  /** TryGetInt32, then TryGetInt64, then GetDecimal (FormatException when none applies). */
  function NumberFrom(mantissa: int, scale: nat): (r: Result<Value>)
    ensures r.Ok? ==> IsNumeric(r.value) && !r.value.Int16?
  {
    if scale == 0 && InInt32(mantissa) then Ok(Int32(mantissa))
    else if scale == 0 && InInt64(mantissa) then Ok(Int64(mantissa))
    else if IsDecimal(mantissa, scale) then Ok(Decimal(DecimalRep(mantissa, scale)))
    else Err(FormatError)
  }

  /** TryGetGuid, then TryGetDateTime, then GetString. */
  function StringFrom(fmt: Formats, s: string): (v: Value)
    ensures v == Text(s) <==> fmt.parseGuid(s).None? && fmt.parseDateTime(s).None?
    ensures fmt.parseGuid(s).Some? ==> v == Guid(fmt.parseGuid(s).value)
  {
    match fmt.parseGuid(s)
    case Some(g) => Guid(g)
    case None =>
      match fmt.parseDateTime(s)
      case Some(d) => DateTime(d)
      case None => Text(s)
  }

  /**
    The inner foreach over a tagged object's members: the type the last
    "TypeDiscriminator" names (None when it names nothing Type.GetType finds)
    and the last "ValueObject" member's value. A discriminator that is JSON
    null makes Type.GetType throw; any other non-string makes GetString throw.
  */
  function TagFrom(reg: Registry, ms: seq<Member>, objectType: Option<RType>, objectValue: Option<Json>): (r: Result<(Option<RType>, Option<Json>)>)
    // the scan fails exactly when some discriminator is not a string
    ensures r.Ok? <==> forall k :: 0 <= k < |ms| && ms[k].name == TypePropertyName ==> ms[k].value.JString?
    ensures r.Err? ==> r.error == ArgumentNull || r.error == WrongValueKind
    decreases ms
  {
    if ms == [] then Ok((objectType, objectValue))
    else if ms[0].name == TypePropertyName then
      match ms[0].value
      case JString(s) => TagFrom(reg, ms[1..], Resolve(reg, s), objectValue)
      case JNull => Err(ArgumentNull)
      case _ => Err(WrongValueKind)
    else if ms[0].name == ValuePropertyName then TagFrom(reg, ms[1..], objectType, Some(ms[0].value))
    else TagFrom(reg, ms[1..], objectType, objectValue)
  }

  /** JsonElement.GetString(): the text of a string, null for JSON null, InvalidOperationException otherwise. */
  function StringOf(j: Json): Result<Option<string>> {
    match j
    case JString(s) => Ok(Some(s))
    case JNull => Ok(None)
    case _ => Err(WrongValueKind)
  }

  /** JsonSerializer.Deserialize(json, type, options) for a string that may be null and a type that may be null. */
  function DeserializeText(fmt: Formats, reg: Registry, json: Option<string>, t: Option<RType>): (r: Result<Value>)
    ensures json.None? || t.None? ==> r == Err(ArgumentNull)
    ensures json.Some? && t.Some? && fmt.parseJson(json.value).None? ==> r == Err(JsonInvalid)
    // printed JSON is read back as JsonSerializer reads that document
    ensures Coherent(fmt) && t.Some? && json.Some? && fmt.parseJson(json.value).Some?
            ==> r == StjRead(fmt, reg, fmt.parseJson(json.value).value, t.value)
  {
    if json.None? || t.None? then Err(ArgumentNull)
    else
      match fmt.parseJson(json.value)
      case None => Err(JsonInvalid)
      case Some(j) => StjRead(fmt, reg, j, t.value)
  }

  /** One element of a stored list: {"TypeDiscriminator": its type, "ValueObject": its JSON as text}, read by its own type. */
  function ElementFrom(fmt: Formats, reg: Registry, item: Json): (r: Result<Value>)
    ensures !item.JObject? ==> r == Err(WrongValueKind)
    // an element is read only from an object holding both tags, as the type its discriminator names
    ensures r.Ok? ==> && item.JObject?
                      && Property(item.members, TypePropertyName).Some?
                      && Property(item.members, TypePropertyName).value.JString?
                      && Resolve(reg, Property(item.members, TypePropertyName).value.s).Some?
                      && Property(item.members, ValuePropertyName).Some?
                      && Property(item.members, ValuePropertyName).value.JString?
  {
    if !item.JObject? then Err(WrongValueKind)
    else
      match Property(item.members, TypePropertyName)
      case None => Err(KeyNotFound)
      case Some(tj) =>
        var typeName :- StringOf(tj);
        if typeName.None? then Err(ArgumentNull)  // Type.GetType(null)
        else
          var elementType := Resolve(reg, typeName.value);
          match Property(item.members, ValuePropertyName)
          case None => Err(KeyNotFound)
          case Some(vj) =>
            var text :- StringOf(vj);
            DeserializeText(fmt, reg, text, elementType)
  }

  /** IList.Add on a List<element>: null where the element type admits none, and a value of another type, are refused. */
  function AddChecked(element: RType, v: Value): Result<Value> {
    if v.Null? && !CanBeNull(element) then Err(ArgumentNull)
    else if !Assignable(v, element) then Err(ArgumentError)
    else Ok(v)
  }

  /** The loop of DeserializeObject's list branch. */
  function ElementsFrom(fmt: Formats, reg: Registry, element: RType, items: seq<Json>): (r: Result<seq<Value>>)
    ensures r.Ok? ==> |r.value| == |items| && forall i :: 0 <= i < |items| ==> Assignable(r.value[i], element)
  {
    if items == [] then Ok([])
    else
      var e :- ElementFrom(fmt, reg, items[0]);
      var added :- AddChecked(element, e);
      var rest :- ElementsFrom(fmt, reg, element, items[1..]);
      Ok([added] + rest)
  }

  /**
    DeserializeObject: a list type is rebuilt element by element from a JSON
    array; any other type is read from the ValueObject's text.
  */
  function ObjectFrom(fmt: Formats, reg: Registry, t: RType, objectValue: Json): (r: Result<Value>)
    // a registered list comes from an array, one element per item, each of the element type
    ensures t.TList? && t.name in reg && reg[t.name].ListInfo? && r.Ok? ==>
      && objectValue.JArray? && r.value.List? && r.value.listType == t.name
      && |r.value.items| == |objectValue.items|
      && forall i :: 0 <= i < |r.value.items| ==> Assignable(r.value.items[i], reg[t.name].element)
    // anything else comes from the ValueObject's text
    ensures !(t.TList? && t.name in reg && reg[t.name].ListInfo?) && r.Ok? ==> objectValue.JString?
  {
    if t.TList? && t.name in reg && reg[t.name].ListInfo? then
      match objectValue
      case JArray(items) =>
        var vs :- ElementsFrom(fmt, reg, reg[t.name].element, items);
        Ok(List(t.name, vs))
      case _ => Err(WrongValueKind)  // EnumerateArray on a non-array
    else
      var text :- StringOf(objectValue);
      DeserializeText(fmt, reg, text, Some(t))
  }

  /**
    One pass of DeserializeDictionary's loop, by the JSON kind of the entry:
    the value stored under the key, or None when a tagged object lacks its
    type or value (the entry is skipped).
  */
  function EntryFrom(fmt: Formats, reg: Registry, j: Json): (r: Result<Option<Value>>)
    ensures j.JArray? ==> r == Err(InvalidOperation(CannotDeserialize("Array")))
    ensures r.Ok? && r.value.None? ==> j.JObject?
  {
    match j
    case JBool(b) => Ok(Some(Bool(b)))
    case JNumber(m, s) =>
      var v :- NumberFrom(m, s);
      Ok(Some(v))
    case JString(s) => Ok(Some(StringFrom(fmt, s)))
    case JNull => Ok(Some(Null))
    case JObject(ms) =>
      var tag :- TagFrom(reg, ms, None, None);
      if tag.0.None? || tag.1.None? then Ok(None)
      else
        var v :- TaggedValueFrom(fmt, reg, tag.0.value, tag.1.value);
        Ok(Some(v))
    case JArray(_) => Err(InvalidOperation(CannotDeserialize("Array")))
  }

  /** A tagged object with both its type and its value found: Enum.Parse for an enum, ObjectFrom otherwise. */
  function TaggedValueFrom(fmt: Formats, reg: Registry, t: RType, objectValue: Json): (r: Result<Value>)
    // an enum is parsed from its text, as a value of that enum
    ensures t.TEnum? && r.Ok? ==> && objectValue.JString? && r.value.Enum? && r.value.enumType == t.name
                                   && EnumParse(EnumMembers(reg, t.name), objectValue.s) == Ok(r.value.ordinal)
    ensures t.TEnum? && objectValue.JNull? ==> r == Err(ArgumentNull)
  {
    if t.TEnum? then
      var s :- StringOf(objectValue);
      if s.None? then Err(ArgumentNull)
      else
        var k :- EnumParse(EnumMembers(reg, t.name), s.value);
        Ok(Enum(t.name, k))
    else ObjectFrom(fmt, reg, t, objectValue)
  }

  /** DeserializeDictionary's loop: each decoded entry stored under its name, a later one replacing an earlier one. */
  function DictionaryFrom(fmt: Formats, reg: Registry, acc: map<string, Value>, ms: seq<Member>): (r: Result<map<string, Value>>)
    ensures r.Ok? ==> acc.Keys <= r.value.Keys
    decreases ms
  {
    if ms == [] then Ok(acc)
    else
      var v :- EntryFrom(fmt, reg, ms[0].value);
      DictionaryFrom(fmt, reg, if v.Some? then acc[ms[0].name := v.value] else acc, ms[1..])
  }

  /** Deserialize: ArgumentNullException for null, an empty dictionary for no bytes, else the root object's entries. */
  function DeserializedForm(fmt: Formats, reg: Registry, value: Option<Bytes>): (r: Result<map<string, Value>>)
    ensures value.None? ==> r == Err(ArgumentNull)
    ensures value == Some(NoBytes) ==> r == Ok(map[])
    ensures value == Some(NotJson) ==> r == Err(JsonInvalid)
  {
    match value
    case None => Err(ArgumentNull)
    case Some(NoBytes) => Ok(map[])
    case Some(NotJson) => Err(JsonInvalid)
    case Some(Document(root)) =>
      if !root.JObject? then Err(WrongValueKind)  // EnumerateObject on a non-object root
      else DictionaryFrom(fmt, reg, map[], root.members)
  }

  // ---------------------------------------------------------------------
  // The serializer's loops
  // ---------------------------------------------------------------------

  /** WriteListToJson: writes the elements one after the other. */
  lemma ListJsonStep(fmt: Formats, reg: Registry, items: seq<Value>)
    requires items != []
    ensures ListJson(fmt, reg, items)
      == if items[0].Null? then Err(NullReference)
         else if StjWrite(fmt, reg, items[0]).Err? then Err(StjWrite(fmt, reg, items[0]).error)
         else Prefixed([Tagged(FullName(TypeOf(items[0])), JString(fmt.printJson(StjWrite(fmt, reg, items[0]).value)))],
                       ListJson(fmt, reg, items[1..]))
  {
  }

  method WriteListToJson(fmt: Formats, reg: Registry, items: seq<Value>) returns (r: Result<seq<Json>>)
    ensures r == ListJson(fmt, reg, items)
  {
    var written: seq<Json> := [];
    var i := 0;
    assert items[0..] == items;
    ghost var whole := ListJson(fmt, reg, items);
    assert whole.Ok? ==> [] + whole.value == whole.value;
    while i < |items|
      invariant 0 <= i <= |items|
      invariant ListJson(fmt, reg, items) == Prefixed(written, ListJson(fmt, reg, items[i..]))
    {
      assert items[i..][1..] == items[i + 1..];
      var item := items[i];
      if item.Null? {
        return Err(NullReference);
      }
      var j := StjWrite(fmt, reg, item);
      if j.Err? {
        return Err(j.error);
      }
      var element := Tagged(FullName(TypeOf(item)), JString(fmt.printJson(j.value)));
      ListJsonStep(fmt, reg, items[i..]);
      PrefixedAppend(written, [element], ListJson(fmt, reg, items[i + 1..]));
      written := written + [element];
      i := i + 1;
    }
    assert written + [] == written;
    return Ok(written);
  }

  /** The body of Serialize's loop for one entry; a list goes through WriteListToJson. */
  method WriteEntry(fmt: Formats, reg: Registry, key: string, v: Value) returns (m: Result<Option<Member>>)
    ensures m == EntryJson(fmt, reg, key, v)
  {
    if v.List? && CanSerializeType(TypeOf(v)) {
      var js := WriteListToJson(fmt, reg, v.items);
      if js.Err? {
        return Err(js.error);
      }
      return Ok(Some(Member(key, Tagged(FullName(TypeOf(v)), JArray(js.value)))));
    }
    return EntryJson(fmt, reg, key, v);
  }

  /** One step of Serialize's loop in terms of the entry it writes and the entries after it. */
  lemma EntriesJsonStep(fmt: Formats, reg: Registry, entries: seq<Entry>)
    requires entries != []
    ensures var m := EntryJson(fmt, reg, entries[0].0, entries[0].1);
      EntriesJson(fmt, reg, entries)
        == if m.Err? then Err(m.error) else Prefixed(if m.value.Some? then [m.value.value] else [], EntriesJson(fmt, reg, entries[1..]))
  {
    var rest := EntriesJson(fmt, reg, entries[1..]);
    assert rest.Ok? ==> [] + rest.value == rest.value;
  }

  /** Serialize: the empty array for a null or empty dictionary, else the entries written one by one. */
  method Serialize(fmt: Formats, reg: Registry, values: Option<seq<Entry>>) returns (r: Result<Bytes>)
    ensures r == SerializedForm(fmt, reg, values)
  {
    if values.None? || |values.value| == 0 {
      return Ok(NoBytes);
    }
    var entries := values.value;
    var members: seq<Member> := [];
    var i := 0;
    assert entries[0..] == entries;
    ghost var whole := EntriesJson(fmt, reg, entries);
    assert whole.Ok? ==> [] + whole.value == whole.value;
    while i < |entries|
      invariant 0 <= i <= |entries|
      invariant EntriesJson(fmt, reg, entries) == Prefixed(members, EntriesJson(fmt, reg, entries[i..]))
    {
      assert entries[i..][1..] == entries[i + 1..];
      EntriesJsonStep(fmt, reg, entries[i..]);
      var (key, v) := entries[i];
      var m := WriteEntry(fmt, reg, key, v);
      if m.Err? {
        return Err(m.error);
      }
      ghost var written := if m.value.Some? then [m.value.value] else [];
      PrefixedAppend(members, written, EntriesJson(fmt, reg, entries[i + 1..]));
      if m.value.Some? {
        members := members + [m.value.value];
      }
      i := i + 1;
    }
    assert members + [] == members;
    return Ok(Document(JObject(members)));
  }

  /** DeserializeObject: a list is rebuilt by adding its elements one after another. */
  lemma ElementsFromStep(fmt: Formats, reg: Registry, element: RType, items: seq<Json>)
    requires items != []
    ensures var e := ElementFrom(fmt, reg, items[0]);
      ElementsFrom(fmt, reg, element, items)
        == if e.Err? then Err(e.error)
           else if AddChecked(element, e.value).Err? then Err(AddChecked(element, e.value).error)
           else Prefixed([AddChecked(element, e.value).value], ElementsFrom(fmt, reg, element, items[1..]))
  {
  }

  method DeserializeObject(fmt: Formats, reg: Registry, t: RType, objectValue: Json) returns (r: Result<Value>)
    ensures r == ObjectFrom(fmt, reg, t, objectValue)
  {
    if !(t.TList? && t.name in reg && reg[t.name].ListInfo?) {
      var text := StringOf(objectValue);
      if text.Err? {
        return Err(text.error);
      }
      return DeserializeText(fmt, reg, text.value, Some(t));
    }
    if !objectValue.JArray? {
      return Err(WrongValueKind);
    }
    var element := reg[t.name].element;
    var items := objectValue.items;
    var list: seq<Value> := [];
    var i := 0;
    assert items[0..] == items;
    ghost var whole := ElementsFrom(fmt, reg, element, items);
    assert whole.Ok? ==> [] + whole.value == whole.value;
    while i < |items|
      invariant 0 <= i <= |items|
      invariant ElementsFrom(fmt, reg, element, items) == Prefixed(list, ElementsFrom(fmt, reg, element, items[i..]))
    {
      assert items[i..][1..] == items[i + 1..];
      ElementsFromStep(fmt, reg, element, items[i..]);
      var e := ElementFrom(fmt, reg, items[i]);
      if e.Err? {
        return Err(e.error);
      }
      var added := AddChecked(element, e.value);
      if added.Err? {
        return Err(added.error);
      }
      PrefixedAppend(list, [added.value], ElementsFrom(fmt, reg, element, items[i + 1..]));
      list := list + [added.value];
      i := i + 1;
    }
    assert list + [] == list;
    return Ok(List(t.name, list));
  }

  /**
    DeserializeDictionary: decodes the root object's entries one by one,
    scanning a tagged object's members for its type and value.
  */
  method DeserializeDictionary(fmt: Formats, reg: Registry, root: Json) returns (r: Result<map<string, Value>>)
    requires root.JObject?
    ensures r == DictionaryFrom(fmt, reg, map[], root.members)
  {
    var ms := root.members;
    var deserialized: map<string, Value> := map[];
    var i := 0;
    assert ms[0..] == ms;
    while i < |ms|
      invariant 0 <= i <= |ms|
      invariant DictionaryFrom(fmt, reg, map[], ms) == DictionaryFrom(fmt, reg, deserialized, ms[i..])
    {
      assert ms[i..][1..] == ms[i + 1..];
      var item := ms[i];
      var decoded: Result<Option<Value>>;
      if item.value.JObject? {
        var oms := item.value.members;
        var objectType: Option<RType> := None;
        var objectValue: Option<Json> := None;
        var k := 0;
        assert oms[0..] == oms;
        while k < |oms|
          invariant 0 <= k <= |oms|
          invariant TagFrom(reg, oms, None, None) == TagFrom(reg, oms[k..], objectType, objectValue)
        {
          assert oms[k..][1..] == oms[k + 1..];
          var objectElement := oms[k];
          if objectElement.name == TypePropertyName {
            var typeName := StringOf(objectElement.value);
            if typeName.Err? {
              return Err(typeName.error);
            }
            if typeName.value.None? {
              return Err(ArgumentNull);
            }
            objectType := Resolve(reg, typeName.value.value);
          } else if objectElement.name == ValuePropertyName {
            objectValue := Some(objectElement.value);
          }
          k := k + 1;
        }
        if objectType.None? || objectValue.None? {
          decoded := Ok(None);
        } else if objectType.value.TEnum? {
          var n := objectType.value.name;
          var s := StringOf(objectValue.value);
          if s.Err? {
            return Err(s.error);
          }
          if s.value.None? {
            return Err(ArgumentNull);
          }
          var ordinal := EnumParse(EnumMembers(reg, n), s.value.value);
          if ordinal.Err? {
            return Err(ordinal.error);
          }
          decoded := Ok(Some(Enum(n, ordinal.value)));
        } else {
          var o := DeserializeObject(fmt, reg, objectType.value, objectValue.value);
          if o.Err? {
            return Err(o.error);
          }
          decoded := Ok(Some(o.value));
        }
      } else {
        decoded := EntryFrom(fmt, reg, item.value);
      }
      assert decoded == EntryFrom(fmt, reg, item.value);
      if decoded.Err? {
        return Err(decoded.error);
      }
      if decoded.value.Some? {
        deserialized := deserialized[item.name := decoded.value.value];
      }
      i := i + 1;
    }
    return Ok(deserialized);
  }

  /** Deserialize: ArgumentNullException for null, an empty dictionary for no bytes, else the root object's entries. */
  method Deserialize(fmt: Formats, reg: Registry, value: Option<Bytes>) returns (r: Result<map<string, Value>>)
    ensures r == DeserializedForm(fmt, reg, value)
  {
    if value.None? {
      return Err(ArgumentNull);
    }
    match value.value
    case NoBytes => return Ok(map[]);
    case NotJson => return Err(JsonInvalid);
    case Document(root) =>
      if !root.JObject? {
        return Err(WrongValueKind);
      }
      r := DeserializeDictionary(fmt, reg, root);
  }

  // ---------------------------------------------------------------------
  // Errors
  // ---------------------------------------------------------------------

  lemma {:induction false} EntriesJsonFirstError(fmt: Formats, reg: Registry, entries: seq<Entry>, i: nat)
    requires i < |entries| && EntryJson(fmt, reg, entries[i].0, entries[i].1).Err?
    requires forall k :: 0 <= k < i ==> EntryJson(fmt, reg, entries[k].0, entries[k].1).Ok?
    ensures EntriesJson(fmt, reg, entries) == Err(EntryJson(fmt, reg, entries[i].0, entries[i].1).error)
    decreases i
  {
    if i > 0 {
      EntriesJsonFirstError(fmt, reg, entries[1..], i - 1);
    }
  }

  /**
    Serialize stops at the first value whose type CanSerializeType refuses,
    with the serializer's InvalidOperationException naming that type.
  */
  lemma SerializeRefusesType(fmt: Formats, reg: Registry, entries: seq<Entry>, i: nat)
    requires i < |entries| && !entries[i].1.Null? && !CanSerializeType(TypeOf(entries[i].1))
    requires forall k :: 0 <= k < i ==> EntryJson(fmt, reg, entries[k].0, entries[k].1).Ok?
    ensures SerializedForm(fmt, reg, Some(entries)) == Err(InvalidOperation(CannotSerialize(FullName(TypeOf(entries[i].1)))))
  {
    EntriesJsonFirstError(fmt, reg, entries, i);
  }

  /**
    Deserialize stops at the first entry that fails to decode (an array entry,
    a number no numeric type holds, a malformed tagged object) with that
    entry's exception.
  */
  lemma {:induction false} DictionaryFirstError(fmt: Formats, reg: Registry, acc: map<string, Value>, ms: seq<Member>, i: nat)
    requires i < |ms| && EntryFrom(fmt, reg, ms[i].value).Err?
    requires forall k :: 0 <= k < i ==> EntryFrom(fmt, reg, ms[k].value).Ok?
    ensures DictionaryFrom(fmt, reg, acc, ms) == Err(EntryFrom(fmt, reg, ms[i].value).error)
    decreases i
  {
    if i > 0 {
      var v := EntryFrom(fmt, reg, ms[0].value).value;
      DictionaryFirstError(fmt, reg, if v.Some? then acc[ms[0].name := v.value] else acc, ms[1..], i - 1);
    }
  }

  // ---------------------------------------------------------------------
  // Skipped tagged objects
  // ---------------------------------------------------------------------

  lemma TagNamesDiffer()
    ensures TypePropertyName != ValuePropertyName
  {
    assert |TypePropertyName| != |ValuePropertyName|;
  }

  /**
    The inner scan keeps the LAST "TypeDiscriminator" and the LAST
    "ValueObject" member and ignores members with any other name.
  */
  lemma {:induction false} TagFromFindsLast(reg: Registry, ms: seq<Member>, t0: Option<RType>, v0: Option<Json>)
    requires TagFrom(reg, ms, t0, v0).Ok?
    ensures var tag := TagFrom(reg, ms, t0, v0).value;
      && tag.1 == (if Property(ms, ValuePropertyName).Some? then Property(ms, ValuePropertyName) else v0)
      && (match Property(ms, TypePropertyName)
          case None => tag.0 == t0
          case Some(j) => j.JString? && tag.0 == Resolve(reg, j.s))
    decreases ms
  {
    if ms != [] {
      TagNamesDiffer();
      var m := ms[0];
      assert ms == [m] + ms[1..];
      PropertyOfCons(m, ms[1..], ValuePropertyName);
      PropertyOfCons(m, ms[1..], TypePropertyName);
      if m.name == TypePropertyName {
        TagFromFindsLast(reg, ms[1..], Resolve(reg, m.value.s), v0);
      } else if m.name == ValuePropertyName {
        TagFromFindsLast(reg, ms[1..], t0, Some(m.value));
      } else {
        TagFromFindsLast(reg, ms[1..], t0, v0);
      }
    }
  }

  /**
    A tagged object entry is skipped exactly when it has no "ValueObject",
    no "TypeDiscriminator", or a discriminator that names no type.
  */
  lemma TaggedEntrySkipped(fmt: Formats, reg: Registry, oms: seq<Member>)
    requires TagFrom(reg, oms, None, None).Ok?
    ensures EntryFrom(fmt, reg, JObject(oms)) == Ok(None) <==>
      || Property(oms, ValuePropertyName).None?
      || (match Property(oms, TypePropertyName)
          case None => true
          case Some(j) => j.JString? && Resolve(reg, j.s).None?)
  {
    TagFromFindsLast(reg, oms, None, None);
  }

  /** A skipped entry leaves no trace: the dictionary is the one decoded without it. */
  lemma {:induction false} SkippedEntryIgnored(fmt: Formats, reg: Registry, acc: map<string, Value>, ms: seq<Member>, i: nat)
    requires i < |ms| && EntryFrom(fmt, reg, ms[i].value) == Ok(None)
    ensures DictionaryFrom(fmt, reg, acc, ms) == DictionaryFrom(fmt, reg, acc, ms[..i] + ms[i + 1..])
    decreases i
  {
    var without := ms[..i] + ms[i + 1..];
    if i == 0 {
      assert without == ms[1..];
    } else {
      assert without[0] == ms[0] && without[1..] == ms[1..][..i - 1] + ms[1..][i..];
      var e := EntryFrom(fmt, reg, ms[0].value);
      if e.Ok? {
        SkippedEntryIgnored(fmt, reg, if e.value.Some? then acc[ms[0].name := e.value.value] else acc, ms[1..], i - 1);
      }
    }
  }

  // ---------------------------------------------------------------------
  // Round trips
  // ---------------------------------------------------------------------

  /**
    The value Deserialize restores for a value Serialize stored: a number as
    the narrowest of int, long and decimal that holds it, a string as a Guid
    or DateTime when it reads as one, objects and lists as the converter and
    JsonSerializer restore them, everything else unchanged.
  */
  function EntryRestored(fmt: Formats, reg: Registry, v: Value): Value {
    match v
    case Int64(i) => if InInt32(i) then Int32(i) else v
    case Decimal(d) =>
      if d.scale == 0 && InInt32(d.mantissa) then Int32(d.mantissa)
      else if d.scale == 0 && InInt64(d.mantissa) then Int64(d.mantissa)
      else v
    case Text(s) => StringFrom(fmt, s)
    case Aggregate(_, _) => StjRestored(reg, v)
    case List(_, _) => StjRestored(reg, v)
    case _ => v
  }

  /** The dictionary of restored entries, a later entry replacing an earlier one with the same key. */
  function RestoredMap(fmt: Formats, reg: Registry, acc: map<string, Value>, entries: seq<Entry>): map<string, Value>
    decreases entries
  {
    if entries == [] then acc
    else RestoredMap(fmt, reg, acc[entries[0].0 := EntryRestored(fmt, reg, entries[0].1)], entries[1..])
  }

  /** Type.GetType(t.FullName) finds t again, for every type the registry knows. */
  lemma ResolveFullName(reg: Registry, t: RType)
    requires ValidRegistry(reg) && KnownType(reg, t) && !t.TNullable?
    ensures Resolve(reg, FullName(t)) == Some(t)
  {
    match t
    case TEnum(n) =>
      assert BuiltinType(n).None?;
    case TAggregate(n) =>
      assert BuiltinType(n).None?;
    case TList(n) =>
      assert BuiltinType(n).None?;
    case TEnumerable(n) =>
      assert BuiltinType(n).None?;
    case TOther(n, _) =>
      assert BuiltinType(n).None?;
    case _ =>
  }

  lemma TypeOfKnown(reg: Registry, v: Value)
    requires WellTyped(reg, v) && !v.Null?
    ensures KnownType(reg, TypeOf(v)) && !TypeOf(v).TNullable?
  {
  }

  lemma TaggedMembers(reg: Registry, typeName: string, value: Json, t0: Option<RType>, v0: Option<Json>)
    ensures Property(Tagged(typeName, value).members, TypePropertyName) == Some(JString(typeName))
    ensures Property(Tagged(typeName, value).members, ValuePropertyName) == Some(value)
    ensures TagFrom(reg, Tagged(typeName, value).members, t0, v0) == Ok((Resolve(reg, typeName), Some(value)))
  {
    TagNamesDiffer();
    var ms := Tagged(typeName, value).members;
    assert ms[..1] == [ms[0]];
    assert LastIndexOf(ms, TypePropertyName) == LastIndexOf(ms[..1], TypePropertyName) == Some(0);
    assert ms[1..][1..] == [];
    assert TagFrom(reg, ms[1..], Resolve(reg, typeName), v0) == TagFrom(reg, ms[1..][1..], Resolve(reg, typeName), Some(value));
  }

  /** A list element tagged with a type name that resolves is read by that type from its text. */
  lemma ElementFromTagged(fmt: Formats, reg: Registry, typeName: string, text: string)
    requires Resolve(reg, typeName).Some?
    ensures ElementFrom(fmt, reg, Tagged(typeName, JString(text))) == DeserializeText(fmt, reg, Some(text), Resolve(reg, typeName))
  {
    TaggedMembers(reg, typeName, JString(text), None, None);
  }

  /** A dictionary entry tagged with a type name that resolves is read by TaggedValueFrom. */
  lemma EntryFromTagged(fmt: Formats, reg: Registry, typeName: string, value: Json)
    requires Resolve(reg, typeName).Some?
    ensures EntryFrom(fmt, reg, Tagged(typeName, value))
      == match TaggedValueFrom(fmt, reg, Resolve(reg, typeName).value, value)
         case Ok(v) => Ok(Some(v))
         case Err(e) => Err(e)
  {
    TaggedMembers(reg, typeName, value, None, None);
  }

  /** The tagged object WriteListToJson writes for a non-null element. */
  function WrittenElement(fmt: Formats, reg: Registry, e: Value): Json
    requires !e.Null? && StjWrite(fmt, reg, e).Ok?
  {
    Tagged(FullName(TypeOf(e)), JString(fmt.printJson(StjWrite(fmt, reg, e).value)))
  }

  /** What ElementRoundTrip proves of one element of a list of `element`. */
  ghost predicate ElementRoundTrips(fmt: Formats, reg: Registry, element: RType, e: Value) {
    !e.Null? && StjWrite(fmt, reg, e).Ok? ==>
      && ElementFrom(fmt, reg, WrittenElement(fmt, reg, e)) == Ok(StjRestored(reg, e))
      && AddChecked(element, StjRestored(reg, e)) == Ok(StjRestored(reg, e))
  }

  /** An element written by WriteListToJson is read back by its own discriminator, and the list accepts it. */
  lemma ElementRoundTrip(fmt: Formats, reg: Registry, element: RType, e: Value)
    requires Coherent(fmt) && ValidRegistry(reg) && NoPlainEnumFieldsIn(reg)
    requires WellTyped(reg, e) && Assignable(e, element)
    ensures ElementRoundTrips(fmt, reg, element, e)
  {
    if !e.Null? && StjWrite(fmt, reg, e).Ok? {
      var j := StjWrite(fmt, reg, e).value;
      TypeOfKnown(reg, e);
      ResolveFullName(reg, TypeOf(e));
      ElementFromTagged(fmt, reg, FullName(TypeOf(e)), fmt.printJson(j));
      assert fmt.parseJson(fmt.printJson(j)) == Some(j);
      StjRoundTrip(fmt, reg, e);
      assert AddChecked(element, StjRestored(reg, e)) == Ok(StjRestored(reg, e));
    }
  }

  /** A list comes back with the same length and order, each element restored by its own type. */
  lemma {:induction false} ListRoundTrip(fmt: Formats, reg: Registry, items: seq<Value>, element: RType)
    requires forall i :: 0 <= i < |items| ==> ElementRoundTrips(fmt, reg, element, items[i])
    requires ListJson(fmt, reg, items).Ok?
    ensures ElementsFrom(fmt, reg, element, ListJson(fmt, reg, items).value) == Ok(RestoredItems(reg, items))
    decreases items
  {
    if items != [] {
      var e := items[0];
      ListJsonStep(fmt, reg, items);
      var js := ListJson(fmt, reg, items).value;
      var rest := ListJson(fmt, reg, items[1..]).value;
      assert js == [WrittenElement(fmt, reg, e)] + rest;
      assert js[0] == WrittenElement(fmt, reg, e) && js[1..] == rest;
      assert ElementRoundTrips(fmt, reg, element, e);
      ElementsFromStep(fmt, reg, element, js);
      assert forall i :: 0 <= i < |items[1..]| ==> ElementRoundTrips(fmt, reg, element, items[1..][i]) by {
        forall i | 0 <= i < |items[1..]| ensures ElementRoundTrips(fmt, reg, element, items[1..][i]) {
          assert items[1..][i] == items[i + 1];
        }
      }
      ListRoundTrip(fmt, reg, items[1..], element);
    }
  }

  lemma EnumEntryRoundTrip(fmt: Formats, reg: Registry, key: string, v: Value)
    requires ValidRegistry(reg) && WellTyped(reg, v) && v.Enum?
    ensures EntryJson(fmt, reg, key, v).Ok? && EntryJson(fmt, reg, key, v).value.Some?
    ensures EntryFrom(fmt, reg, EntryJson(fmt, reg, key, v).value.value.value) == Ok(Some(v))
  {
    var n := v.enumType;
    var j := Tagged(n, JString(EnumToString(EnumMembers(reg, n), v.ordinal)));
    assert EntryJson(fmt, reg, key, v) == Ok(Some(Member(key, j)));
    ResolveFullName(reg, TEnum(n));
    EntryFromTagged(fmt, reg, n, JString(EnumToString(EnumMembers(reg, n), v.ordinal)));
    EnumNameRoundTrip(EnumMembers(reg, n), v.ordinal);
  }

  lemma AggregateEntryRoundTrip(fmt: Formats, reg: Registry, key: string, v: Value)
    requires Coherent(fmt) && ValidRegistry(reg) && NoPlainEnumFieldsIn(reg) && WellTyped(reg, v) && v.Aggregate?
    requires EntryJson(fmt, reg, key, v).Ok?
    ensures EntryJson(fmt, reg, key, v).value.Some?
    ensures EntryFrom(fmt, reg, EntryJson(fmt, reg, key, v).value.value.value) == Ok(Some(StjRestored(reg, v)))
  {
    var n := v.aggregateType;
    var j := StjWrite(fmt, reg, v).value;
    assert EntryJson(fmt, reg, key, v) == Ok(Some(Member(key, Tagged(n, JString(fmt.printJson(j))))));
    ResolveFullName(reg, TAggregate(n));
    EntryFromTagged(fmt, reg, n, JString(fmt.printJson(j)));
    assert fmt.parseJson(fmt.printJson(j)) == Some(j);
    StjRoundTrip(fmt, reg, v);
  }

  /** An object whose type declares a plain enum field is stored, but reading the entry back throws ArgumentNullException. */
  lemma AggregateEntryRefusesPlainEnum(fmt: Formats, reg: Registry, key: string, v: Value)
    requires Coherent(fmt) && ValidRegistry(reg) && WellTyped(reg, v) && v.Aggregate?
    requires !NoPlainEnumFields(reg[v.aggregateType].fields)
    requires EntryJson(fmt, reg, key, v).Ok?
    ensures EntryJson(fmt, reg, key, v).value.Some?
    ensures EntryFrom(fmt, reg, EntryJson(fmt, reg, key, v).value.value.value) == Err(ArgumentNull)
  {
    var n := v.aggregateType;
    var j := StjWrite(fmt, reg, v).value;
    assert EntryJson(fmt, reg, key, v) == Ok(Some(Member(key, Tagged(n, JString(fmt.printJson(j))))));
    ResolveFullName(reg, TAggregate(n));
    EntryFromTagged(fmt, reg, n, JString(fmt.printJson(j)));
    assert fmt.parseJson(fmt.printJson(j)) == Some(j);
    ConverterReadRefusesPlainEnum(fmt, reg, v);
  }

  lemma ListEntryRoundTrip(fmt: Formats, reg: Registry, key: string, v: Value)
    requires Coherent(fmt) && ValidRegistry(reg) && NoPlainEnumFieldsIn(reg) && WellTyped(reg, v) && v.List?
    requires EntryJson(fmt, reg, key, v).Ok?
    ensures EntryJson(fmt, reg, key, v).value.Some?
    ensures EntryFrom(fmt, reg, EntryJson(fmt, reg, key, v).value.value.value) == Ok(Some(StjRestored(reg, v)))
  {
    var n := v.listType;
    var js := ListJson(fmt, reg, v.items).value;
    assert EntryJson(fmt, reg, key, v) == Ok(Some(Member(key, Tagged(n, JArray(js)))));
    ResolveFullName(reg, TList(n));
    EntryFromTagged(fmt, reg, n, JArray(js));
    forall i | 0 <= i < |v.items| ensures ElementRoundTrips(fmt, reg, reg[n].element, v.items[i]) {
      ElementRoundTrip(fmt, reg, reg[n].element, v.items[i]);
    }
    ListRoundTrip(fmt, reg, v.items, reg[n].element);
  }

  /** A `List<int?>` holding 5 is stored and read back unchanged. */
  lemma NullableIntListRoundTrip(fmt: Formats, key: string)
    requires Coherent(fmt)
    ensures var n := "System.Collections.Generic.List`1[System.Nullable`1[System.Int32]]";
            var reg := map[n := ListInfo(TNullable(TInt32))];
            var v := List(n, [Int32(5)]);
            && EntryJson(fmt, reg, key, v).Ok? && EntryJson(fmt, reg, key, v).value.Some?
            && EntryFrom(fmt, reg, EntryJson(fmt, reg, key, v).value.value.value) == Ok(Some(v))
  {
    var n := "System.Collections.Generic.List`1[System.Nullable`1[System.Int32]]";
    var reg := map[n := ListInfo(TNullable(TInt32))];
    var v := List(n, [Int32(5)]);
    assert StjWrite(fmt, reg, Int32(5)).Ok?;
    ListJsonStep(fmt, reg, v.items);
    assert EntryJson(fmt, reg, key, v).Ok?;
    ListEntryRoundTrip(fmt, reg, key, v);
    assert StjRestored(reg, v) == v;
  }

  /** One entry: what Serialize writes under the key, Deserialize decodes to the restored value. */
  lemma EntryRoundTrip(fmt: Formats, reg: Registry, key: string, v: Value)
    requires Coherent(fmt) && ValidRegistry(reg) && NoPlainEnumFieldsIn(reg) && WellTyped(reg, v)
    requires EntryJson(fmt, reg, key, v).Ok?
    ensures EntryJson(fmt, reg, key, v).value.Some?
    ensures EntryFrom(fmt, reg, EntryJson(fmt, reg, key, v).value.value.value) == Ok(Some(EntryRestored(fmt, reg, v)))
  {
    if v.Enum? {
      EnumEntryRoundTrip(fmt, reg, key, v);
    } else if v.Aggregate? {
      AggregateEntryRoundTrip(fmt, reg, key, v);
      assert EntryRestored(fmt, reg, v) == StjRestored(reg, v);
    } else if v.List? {
      ListEntryRoundTrip(fmt, reg, key, v);
      assert EntryRestored(fmt, reg, v) == StjRestored(reg, v);
    } else {
      ScalarEntryRoundTrip(fmt, reg, key, v);
    }
  }

  lemma ScalarEntryRoundTrip(fmt: Formats, reg: Registry, key: string, v: Value)
    requires Coherent(fmt) && !v.Enum? && !v.Aggregate? && !v.List?
    requires EntryJson(fmt, reg, key, v).Ok?
    ensures EntryJson(fmt, reg, key, v).value.Some?
    ensures EntryFrom(fmt, reg, EntryJson(fmt, reg, key, v).value.value.value) == Ok(Some(EntryRestored(fmt, reg, v)))
  {
    match v
    case DateTime(d) =>
      assert fmt.parseGuid(fmt.formatDateTime(d)) == None && fmt.parseDateTime(fmt.formatDateTime(d)) == Some(d);
    case Guid(g) =>
      assert fmt.parseGuid(fmt.formatGuid(g)) == Some(g);
    case _ =>
  }

  /** DictionaryFrom over an entry in front of the rest. */
  lemma DictionaryFromStep(fmt: Formats, reg: Registry, acc: map<string, Value>, m: Member, rest: seq<Member>, v: Value)
    requires EntryFrom(fmt, reg, m.value) == Ok(Some(v))
    ensures DictionaryFrom(fmt, reg, acc, [m] + rest) == DictionaryFrom(fmt, reg, acc[m.name := v], rest)
  {
    var ms := [m] + rest;
    assert ms[0] == m && ms[1..] == rest;
  }

  /** What EntryRoundTrip proves of one entry. */
  ghost predicate EntryRoundTrips(fmt: Formats, reg: Registry, e: Entry) {
    var w := EntryJson(fmt, reg, e.0, e.1);
    w.Ok? ==> w.value.Some? && EntryFrom(fmt, reg, w.value.value.value) == Ok(Some(EntryRestored(fmt, reg, e.1)))
  }

  lemma {:induction false} EntriesRoundTrip(fmt: Formats, reg: Registry, acc: map<string, Value>, entries: seq<Entry>)
    requires forall i :: 0 <= i < |entries| ==> EntryRoundTrips(fmt, reg, entries[i])
    requires EntriesJson(fmt, reg, entries).Ok?
    ensures DictionaryFrom(fmt, reg, acc, EntriesJson(fmt, reg, entries).value) == Ok(RestoredMap(fmt, reg, acc, entries))
    decreases entries
  {
    if entries != [] {
      var (key, v) := entries[0];
      assert EntryRoundTrips(fmt, reg, entries[0]);
      EntriesJsonStep(fmt, reg, entries);
      var m := EntryJson(fmt, reg, key, v).value.value;
      var rest := EntriesJson(fmt, reg, entries[1..]).value;
      DictionaryFromStep(fmt, reg, acc, m, rest, EntryRestored(fmt, reg, v));
      assert forall i :: 0 <= i < |entries[1..]| ==> EntryRoundTrips(fmt, reg, entries[1..][i]) by {
        forall i | 0 <= i < |entries[1..]| ensures EntryRoundTrips(fmt, reg, entries[1..][i]) {
          assert entries[1..][i] == entries[i + 1];
        }
      }
      EntriesRoundTrip(fmt, reg, acc[key := EntryRestored(fmt, reg, v)], entries[1..]);
    }
  }

  /**
    Deserialize(Serialize(values)) restores every entry Serialize accepted:
    the same keys (a null value as a present key mapped to null), each value
    as EntryRestored says.
  */
  lemma SerializeThenDeserialize(fmt: Formats, reg: Registry, values: Option<seq<Entry>>)
    requires Coherent(fmt) && ValidRegistry(reg) && NoPlainEnumFieldsIn(reg)
    requires values.Some? ==> forall i :: 0 <= i < |values.value| ==> WellTyped(reg, values.value[i].1)
    requires SerializedForm(fmt, reg, values).Ok?
    ensures DeserializedForm(fmt, reg, Some(SerializedForm(fmt, reg, values).value))
      == Ok(if values.None? then map[] else RestoredMap(fmt, reg, map[], values.value))
  {
    if values.Some? && values.value != [] {
      var entries := values.value;
      forall i | 0 <= i < |entries| ensures EntryRoundTrips(fmt, reg, entries[i]) {
        if EntryJson(fmt, reg, entries[i].0, entries[i].1).Ok? {
          EntryRoundTrip(fmt, reg, entries[i].0, entries[i].1);
        }
      }
      EntriesRoundTrip(fmt, reg, map[], entries);
    }
  }

  /**
    The dictionaries SerializeThenDeserialize leaves out: one holding an
    object whose type declares a plain enum field is stored, and Deserialize
    then throws ArgumentNullException.
  */
  lemma SerializeThenDeserializePlainEnum(fmt: Formats, reg: Registry, key: string, v: Value)
    requires Coherent(fmt) && ValidRegistry(reg) && WellTyped(reg, v) && v.Aggregate?
    requires !NoPlainEnumFields(reg[v.aggregateType].fields)
    requires SerializedForm(fmt, reg, Some([(key, v)])).Ok?
    ensures DeserializedForm(fmt, reg, Some(SerializedForm(fmt, reg, Some([(key, v)])).value)) == Err(ArgumentNull)
  {
    var entries := [(key, v)];
    assert entries[1..] == [];
    AggregateEntryRefusesPlainEnum(fmt, reg, key, v);
    var m := EntryJson(fmt, reg, key, v).value.value;
    assert EntriesJson(fmt, reg, entries) == Ok([m] + []);
    assert [m][1..] == [];
  }

  predicate DistinctKeys(entries: seq<Entry>) {
    forall i, j :: 0 <= i < j < |entries| ==> entries[i].0 != entries[j].0
  }

  /** For a dictionary's distinct keys: exactly its keys, each mapped to its restored value. */
  lemma {:induction false} RestoredMapContents(fmt: Formats, reg: Registry, acc: map<string, Value>, entries: seq<Entry>)
    requires DistinctKeys(entries)
    ensures var m := RestoredMap(fmt, reg, acc, entries);
      && (forall k :: k in m <==> k in acc || exists i :: 0 <= i < |entries| && entries[i].0 == k)
      && (forall i :: 0 <= i < |entries| ==> m[entries[i].0] == EntryRestored(fmt, reg, entries[i].1))
      && (forall k :: k in acc && (forall i :: 0 <= i < |entries| ==> entries[i].0 != k) ==> m[k] == acc[k])
    decreases entries
  {
    if entries != [] {
      var acc' := acc[entries[0].0 := EntryRestored(fmt, reg, entries[0].1)];
      RestoredMapContents(fmt, reg, acc', entries[1..]);
      var m := RestoredMap(fmt, reg, acc, entries);
      assert m == RestoredMap(fmt, reg, acc', entries[1..]);
      forall k | k in m
        ensures k in acc || exists i :: 0 <= i < |entries| && entries[i].0 == k
      {
        if k !in acc && k != entries[0].0 {
          var i :| 0 <= i < |entries[1..]| && entries[1..][i].0 == k;
          assert entries[i + 1].0 == k;
        }
      }
      forall k | k in acc || exists i :: 0 <= i < |entries| && entries[i].0 == k
        ensures k in m
      {
        if k in acc || k == entries[0].0 {
          assert k in acc';
        } else {
          var i :| 0 <= i < |entries| && entries[i].0 == k;
          assert entries[1..][i - 1].0 == k;
        }
      }
      forall i | 0 <= i < |entries|
        ensures m[entries[i].0] == EntryRestored(fmt, reg, entries[i].1)
      {
        if i == 0 {
          assert forall j :: 0 <= j < |entries[1..]| ==> entries[1..][j].0 != entries[0].0;
        } else {
          assert entries[1..][i - 1] == entries[i];
        }
      }
      forall k | k in acc && (forall i :: 0 <= i < |entries| ==> entries[i].0 != k)
        ensures m[k] == acc[k]
      {
        assert forall j :: 0 <= j < |entries[1..]| ==> entries[1..][j].0 != k by {
          forall j | 0 <= j < |entries[1..]| ensures entries[1..][j].0 != k {
            assert entries[1..][j] == entries[j + 1];
          }
        }
        assert k != entries[0].0;
        assert k in acc' && acc'[k] == acc[k];
      }
    }
  }
}
