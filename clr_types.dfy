/**
  The CLR-side vocabulary the TempData serializer works over: the runtime
  types it distinguishes, the values it stores, the registry that stands in
  for Type.GetType and reflection, and the exceptions it can raise.
*/
module ClrTypes {
  import opened Wrappers
  import opened Json

  // ---------------------------------------------------------------------
  // Integer widths and System.Decimal
  // ---------------------------------------------------------------------

  const MaxInt16: int := 0x7FFF
  const MaxInt32: int := 0x7FFF_FFFF
  const MaxInt64: int := 0x7FFF_FFFF_FFFF_FFFF
  /** A decimal's magnitude is a 96-bit unsigned integer. */
  const DecimalMagnitudeBound: int := 0x1_0000_0000_0000_0000_0000_0000
  const MaxDecimalScale: nat := 28

  predicate InInt16(x: int) { -MaxInt16 - 1 <= x <= MaxInt16 }
  predicate InInt32(x: int) { -MaxInt32 - 1 <= x <= MaxInt32 }
  predicate InInt64(x: int) { -MaxInt64 - 1 <= x <= MaxInt64 }

  type int16 = x: int | InInt16(x)
  type int32 = x: int | InInt32(x)
  type int64 = x: int | InInt64(x)

  /** A System.Decimal as sign-and-magnitude mantissa with a power-of-ten scale. */
  datatype DecimalRep = DecimalRep(mantissa: int, scale: nat)

  predicate IsDecimal(mantissa: int, scale: nat) {
    -DecimalMagnitudeBound < mantissa < DecimalMagnitudeBound && scale <= MaxDecimalScale
  }

  type decimal = d: DecimalRep | IsDecimal(d.mantissa, d.scale) witness DecimalRep(0, 0)

  /** Guid and DateTime values; their text forms are parameters (see Formats). */
  datatype GuidValue = GuidValue(bits: nat)
  datatype DateTimeValue = DateTimeValue(ticks: int)

  // ---------------------------------------------------------------------
  // Runtime types and values
  // ---------------------------------------------------------------------

  /**
    The runtime types the serializer tells apart. TAggregate is a class that
    implements IJsonSerializable, TList a class that implements IList (and so
    IEnumerable), TEnumerable another IEnumerable, TOther any other type.
  */
  datatype RType =
    | TEnum(name: string)
    | TInt16
    | TInt32
    | TInt64
    | TDecimal
    | TString
    | TBool
    | TDateTime
    | TGuid
    | TNullable(underlying: RType)
    | TAggregate(name: string)
    | TList(name: string)
    | TEnumerable(name: string)
    | TOther(name: string, isValueType: bool)

  /** An object as the serializer sees it; `Null` is the null reference. */
  datatype Value =
    | Null
    | Bool(b: bool)
    | Int16(i16: int16)
    | Int32(i32: int32)
    | Int64(i64: int64)
    | Decimal(d: decimal)
    | Text(s: string)
    | Guid(g: GuidValue)
    | DateTime(t: DateTimeValue)
    | Enum(enumType: string, ordinal: int32)
    | Aggregate(aggregateType: string, fields: seq<Value>)
    | List(listType: string, items: seq<Value>)
    | Opaque(opaqueType: RType)

  /** value.GetType() of a non-null value. Opaque values carry their type. */
  function TypeOf(v: Value): RType
    requires !v.Null?
  {
    match v
    case Bool(_) => TBool
    case Int16(_) => TInt16
    case Int32(_) => TInt32
    case Int64(_) => TInt64
    case Decimal(_) => TDecimal
    case Text(_) => TString
    case Guid(_) => TGuid
    case DateTime(_) => TDateTime
    case Enum(n, _) => TEnum(n)
    case Aggregate(n, _) => TAggregate(n)
    case List(n, _) => TList(n)
    case Opaque(t) => t
  }

  /** Type.IsValueType. */
  predicate IsValueType(t: RType) {
    match t
    case TString => false
    case TAggregate(_) => false
    case TList(_) => false
    case TEnumerable(_) => false
    case TOther(_, vt) => vt
    case _ => true
  }

  /** Type.FullName as the serializer writes it into a type discriminator. */
  function FullName(t: RType): string {
    match t
    case TInt16 => "System.Int16"
    case TInt32 => "System.Int32"
    case TInt64 => "System.Int64"
    case TDecimal => "System.Decimal"
    case TString => "System.String"
    case TBool => "System.Boolean"
    case TDateTime => "System.DateTime"
    case TGuid => "System.Guid"
    case TNullable(u) => "System.Nullable`1[" + FullName(u) + "]"
    case TEnum(n) => n
    case TAggregate(n) => n
    case TList(n) => n
    case TEnumerable(n) => n
    case TOther(n, _) => n
  }

  /** The framework types that Type.GetType resolves by their full name. */
  function BuiltinType(name: string): Option<RType> {
    if name == "System.Int16" then Some(TInt16)
    else if name == "System.Int32" then Some(TInt32)
    else if name == "System.Int64" then Some(TInt64)
    else if name == "System.Decimal" then Some(TDecimal)
    else if name == "System.String" then Some(TString)
    else if name == "System.Boolean" then Some(TBool)
    else if name == "System.DateTime" then Some(TDateTime)
    else if name == "System.Guid" then Some(TGuid)
    else None
  }

  // ---------------------------------------------------------------------
  // The type registry (in place of Type.GetType and reflection)
  // ---------------------------------------------------------------------

  /** A private instance field, as typeof(T).GetFields(Instance | NonPublic) lists it. */
  datatype Field = Field(name: string, fieldType: RType)

  /**
    What the application's own types expose: an enum's member names (member k
    has ordinal k), an aggregate's fields in declaration order together with
    the field values its parameterless constructor leaves, a List<T>'s element
    type (arrays are not modelled), or nothing for other types.
  */
  datatype TypeInfo =
    | EnumInfo(members: seq<string>)
    | AggregateInfo(fields: seq<Field>, defaults: seq<Value>)
    | ListInfo(element: RType)
    | EnumerableInfo
    | OtherInfo(isValueType: bool)

  type Registry = map<string, TypeInfo>

  function TypeFor(name: string, info: TypeInfo): RType {
    match info
    case EnumInfo(_) => TEnum(name)
    case AggregateInfo(_, _) => TAggregate(name)
    case ListInfo(_) => TList(name)
    case EnumerableInfo => TEnumerable(name)
    case OtherInfo(vt) => TOther(name, vt)
  }

  /** Type.GetType(name): a framework type, an application type, or null. */
  function Resolve(reg: Registry, name: string): (r: Option<RType>)
    ensures r.None? <==> BuiltinType(name).None? && name !in reg
  {
    if BuiltinType(name).Some? then BuiltinType(name)
    else if name in reg then Some(TypeFor(name, reg[name]))
    else None
  }

  /** The member names of an enum type (none when it is not registered). */
  function EnumMembers(reg: Registry, name: string): seq<string> {
    if name in reg && reg[name].EnumInfo? then reg[name].members else []
  }

  /** A field declared with type `t` can hold null. */
  predicate CanBeNull(t: RType) {
    !IsValueType(t) || t.TNullable?
  }

  /** A value that a field or list slot declared with type `t` can hold. */
  predicate Assignable(v: Value, t: RType) {
    if v.Null? then CanBeNull(t) else TypeOf(v) == t || t == TNullable(TypeOf(v))
  }

  /** A declared type that the registry knows, all the way down. */
  predicate KnownType(reg: Registry, t: RType) {
    match t
    case TEnum(n) => n in reg && reg[n].EnumInfo?
    case TAggregate(n) => n in reg && reg[n].AggregateInfo?
    case TList(n) => n in reg && reg[n].ListInfo?
    case TEnumerable(n) => n in reg && reg[n].EnumerableInfo?
    case TOther(n, vt) => n in reg && reg[n] == OtherInfo(vt)
    case TNullable(u) => IsValueType(u) && !u.TNullable? && KnownType(reg, u)
    case _ => true
  }

  /** Every type a value mentions is registered and every field and list slot holds a value it can. */
  ghost predicate WellTyped(reg: Registry, v: Value) {
    match v
    case Enum(n, _) => n in reg && reg[n].EnumInfo?
    case Aggregate(n, vs) =>
      && n in reg && reg[n].AggregateInfo?
      && |vs| == |reg[n].fields|
      && forall i :: 0 <= i < |vs| ==> Assignable(vs[i], reg[n].fields[i].fieldType) && WellTyped(reg, vs[i])
    case List(n, items) =>
      && n in reg && reg[n].ListInfo?
      && forall i :: 0 <= i < |items| ==> Assignable(items[i], reg[n].element) && WellTyped(reg, items[i])
    case Opaque(t) => (t.TEnumerable? || t.TOther?) && KnownType(reg, t)
    case _ => true
  }

  /** A C# identifier cannot start with a digit or a sign. */
  predicate IsIdentifier(s: string) {
    |s| > 0 && !IsDigit(s[0]) && s[0] != '-'
  }

  predicate DistinctNames(ms: seq<string>) {
    forall i, j :: 0 <= i < j < |ms| ==> ms[i] != ms[j]
  }

  predicate DistinctFieldNames(fs: seq<Field>) {
    forall i, j :: 0 <= i < j < |fs| ==> fs[i].name != fs[j].name
  }

  /** What the C# compiler and runtime guarantee about the types a process defines. */
  ghost predicate ValidRegistry(reg: Registry) {
    forall n | n in reg ::
      && BuiltinType(n).None?
      && match reg[n]
         case EnumInfo(ms) =>
           && |ms| <= MaxInt32
           && DistinctNames(ms)
           && forall i :: 0 <= i < |ms| ==> IsIdentifier(ms[i])
         case AggregateInfo(fs, ds) =>
           && |fs| == |ds|
           && DistinctFieldNames(fs)
           && forall i :: 0 <= i < |fs| ==>
                KnownType(reg, fs[i].fieldType) && Assignable(ds[i], fs[i].fieldType) && WellTyped(reg, ds[i])
         case ListInfo(e) => KnownType(reg, e)
         case _ => true
  }

  // ---------------------------------------------------------------------
  // Text formats that the model takes as parameters
  // ---------------------------------------------------------------------

  /**
    The text forms the serializer relies on but does not define: the Guid and
    DateTime forms Utf8JsonWriter writes and JsonElement.TryGetGuid /
    TryGetDateTime accept, and JSON text as JsonSerializer prints and parses it.
  */
  datatype Formats = Formats(
    formatGuid: GuidValue -> string,
    parseGuid: string -> Option<GuidValue>,
    formatDateTime: DateTimeValue -> string,
    parseDateTime: string -> Option<DateTimeValue>,
    printJson: Json -> string,
    parseJson: string -> Option<Json>)

  /**
    The assumptions about those formats under which round trips hold: each
    parser reads back what its printer wrote, and a printed DateTime is never
    read as a Guid.
  */
  ghost predicate Coherent(f: Formats) {
    && (forall g :: f.parseGuid(f.formatGuid(g)) == Some(g))
    && (forall d :: f.parseDateTime(f.formatDateTime(d)) == Some(d))
    && (forall d :: f.parseGuid(f.formatDateTime(d)) == None)
    && (forall j :: f.parseJson(f.printJson(j)) == Some(j))
  }

  // ---------------------------------------------------------------------
  // Exceptions
  // ---------------------------------------------------------------------

  /** The exception a call ends with. */
  datatype Error =
    | ArgumentNull              // ArgumentNullException
    | InvalidOperation(refusal: Refusal)  // InvalidOperationException thrown by the serializer itself
    | WrongValueKind            // InvalidOperationException from a JsonElement accessor used on the wrong kind
    | JsonInvalid               // JsonException
    | FormatError               // FormatException
    | Overflow                  // OverflowException
    | ArgumentError             // ArgumentException
    | KeyNotFound               // KeyNotFoundException
    | NullReference             // NullReferenceException
    | RuntimeBinder             // RuntimeBinderException raised through a dynamic null
    | Unmodelled(gap: Gap)      // a path this model leaves out

  /** The paths of the serializer that this model does not follow. */
  datatype Gap =
    | ReflectionWrite(typeName: string)  // JsonSerializer's reflection over a type it was not given a converter for
    | ReflectionRead(typeName: string)
    | UnregisteredObjectType             // an IJsonSerializable type the registry does not describe
    | UnregisteredListType               // a List<T> type the registry does not describe
    | MismatchedFields                   // an object whose field values do not match its type's field list
    | MismatchedDefaults                 // a default instance that does not match its type's field list
    | MismatchedNumberField              // a number field holding a value of another type

  /** Why the TempData serializer itself gave up; its message text is given by the serializer. */
  datatype Refusal =
    | CannotSerialize(valueType: string)    // a value of a type Serialize does not store
    | CannotDeserialize(valueKind: string)  // an entry of a JSON kind Deserialize does not read

  datatype Result<+T> = Ok(value: T) | Err(error: Error) {
    predicate IsFailure() { Err? }
    function PropagateFailure<U>(): Result<U>
      requires Err?
    {
      Err(error)
    }
    function Extract(): T
      requires Ok?
    {
      value
    }
  }

  // ---------------------------------------------------------------------
  // Integer text, for Enum.ToString and Enum.Parse
  // ---------------------------------------------------------------------

  predicate IsDigit(c: char) { '0' <= c <= '9' }

  predicate AllDigits(s: string) {
    forall i :: 0 <= i < |s| ==> IsDigit(s[i])
  }

  function DigitChar(d: nat): (c: char)
    requires d < 10
    ensures IsDigit(c) && c as int - '0' as int == d
  {
    "0123456789"[d]
  }

  /** The decimal digits of n, most significant first, without leading zeros. */
  function NatToString(n: nat): (r: string)
    ensures |r| > 0 && AllDigits(r)
  {
    if n < 10 then [DigitChar(n)] else NatToString(n / 10) + [DigitChar(n % 10)]
  }

  /** The value of a string of decimal digits. */
  function DigitsValue(s: string): nat
    requires AllDigits(s)
  {
    if s == [] then 0 else DigitsValue(s[..|s| - 1]) * 10 + (s[|s| - 1] as int - '0' as int)
  }

  lemma {:induction false} NatToStringRoundTrip(n: nat)
    ensures DigitsValue(NatToString(n)) == n
  {
    if n >= 10 {
      var s := NatToString(n);
      assert s[..|s| - 1] == NatToString(n / 10);
      NatToStringRoundTrip(n / 10);
    }
  }

  /** Int32.ToString() in the invariant culture. */
  function IntToString(i: int): string {
    if i < 0 then "-" + NatToString(-i) else NatToString(i)
  }

  /** An optionally negative run of decimal digits, as Enum.Parse reads a numeric name. */
  function ParseInteger(s: string): Option<int> {
    if |s| > 1 && s[0] == '-' && AllDigits(s[1..]) then Some(0 - DigitsValue(s[1..]) as int)
    else if |s| > 0 && AllDigits(s) then Some(DigitsValue(s) as int)
    else None
  }

  lemma IntToStringRoundTrip(i: int)
    ensures ParseInteger(IntToString(i)) == Some(i)
    ensures !IsIdentifier(IntToString(i))
  {
    var s := IntToString(i);
    if i < 0 {
      var t := NatToString(-i);
      assert s == "-" + t && s[0] == '-' && s[1..] == t && |s| > 1;
      NatToStringRoundTrip(-i);
      var d := DigitsValue(t);
      assert d == -i;
      assert ParseInteger(s) == Some(0 - d as int);
    } else {
      assert s == NatToString(i) && IsDigit(s[0]) && s[0] != '-';
      NatToStringRoundTrip(i);
      assert ParseInteger(s) == Some(DigitsValue(s) as int);
    }
  }

  // ---------------------------------------------------------------------
  // Enum.ToString and Enum.Parse
  // ---------------------------------------------------------------------

  /** The position of the first name equal to `s`. */
  function IndexOfName(ms: seq<string>, s: string): (r: Option<nat>)
    ensures r.Some? ==> r.value < |ms| && ms[r.value] == s
    ensures r.Some? ==> forall k :: 0 <= k < r.value ==> ms[k] != s
    ensures r.None? ==> forall k :: 0 <= k < |ms| ==> ms[k] != s
  {
    if ms == [] then None
    else if ms[0] == s then Some(0)
    else match IndexOfName(ms[1..], s)
      case None => None
      case Some(k) => Some(k + 1)
  }

  /** Enum.ToString(): the member's name, or the ordinal in digits when no member has that ordinal. */
  function EnumToString(members: seq<string>, ordinal: int32): (r: string)
    ensures 0 <= ordinal < |members| ==> r == members[ordinal]
    // an undefined ordinal is written as digits, which no member name can be
    ensures !(0 <= ordinal < |members|) ==> ParseInteger(r) == Some(ordinal) && !IsIdentifier(r)
  {
    if 0 <= ordinal < |members| then members[ordinal]
    else
      IntToStringRoundTrip(ordinal);
      IntToString(ordinal)
  }

  /**
    Enum.Parse(enumType, s): the ordinal of the member called `s`, else the
    number `s` spells (OverflowException outside Int32), else ArgumentException.
  */
  function EnumParse(members: seq<string>, s: string): (r: Result<int32>)
    // a name wins over a number: the first member called `s`, else the number `s` spells
    ensures r.Ok? ==> match IndexOfName(members, s)
                      case Some(k) => r.value == k
                      case None => ParseInteger(s) == Some(r.value)
    ensures r.Err? ==> r.error == ArgumentError || r.error == Overflow
    ensures r == Err(ArgumentError) <==> IndexOfName(members, s).None? && ParseInteger(s).None?
  {
    match IndexOfName(members, s)
    case Some(k) => if k <= MaxInt32 then Ok(k) else Err(Overflow)
    case None =>
      match ParseInteger(s)
      case Some(k) => if InInt32(k) then Ok(k) else Err(Overflow)
      case None => Err(ArgumentError)
  }

  /** Enum.Parse reads back what Enum.ToString wrote, for defined and undefined ordinals alike. */
  lemma EnumNameRoundTrip(members: seq<string>, k: int32)
    requires |members| <= MaxInt32 && DistinctNames(members)
    requires forall i :: 0 <= i < |members| ==> IsIdentifier(members[i])
    ensures EnumParse(members, EnumToString(members, k)) == Ok(k)
  {
    if !(0 <= k < |members|) {
      IntToStringRoundTrip(k);
    }
  }
}
