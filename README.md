# HighAndLow in Dafny

A model of the core of HighAndLow, an ASP.NET Razor Pages card game. The
player and the computer each hold 26 cards of a shuffled 52-card deck. Each
turn both show their top card, the side that is not the turn's parent calls
"High" or "Low", and a correct call scores 2 points. A draw scores 1 point
each. The page keeps its state between requests in TempData. A custom TempData
serializer stores that state as one JSON object.

The model has three parts.

- **The TempData codec.** Modules `ClrTypes`, `Json`, `JsonSerializableConverter`
  and `CustomTempDataSerializer`.
  - It works on an abstract JSON tree (`Json.Json`), not on UTF-8 bytes.
  - A `Value` union stands for the CLR objects stored in TempData.
  - A `Registry` (type name → type descriptor) stands in for `Type.GetType`
    and reflection.
  - A `Formats` record holds the Guid, DateTime and JSON text formats.
    `Coherent` states when a parse reads back what was printed.
  - Exceptions are `Error` values in a `Result`.
  - `Serialize`, `DeserializeDictionary`, `DeserializeObject`,
    `WriteListToJson`, and the converter's `Write` and `Read` are methods
    with loops. Each is proved equal to a specification function. The
    round trips are proved about those functions.
- **The deck** (module `PlayingCards`).
  - `Card`, `CardImage` and `Cards` are classes.
  - The static deck is built by loops and proved to hold every
    (mark, number) once.
  - The shuffle is an arbitrary permutation, given as a parameter.
  - `Pop` and the draining enumerator change the stack in place.
  - Card faces are Unicode code points in the Playing Cards block.
    The Knight is skipped, and C# `int` wrap-around is written out.
- **The game** (module `IndexPage`). `IndexModel` is a class with the page's
  TempData fields. Each handler states its whole new state. The proofs show:
  - a judgement raises the score total by exactly 2;
  - the two decks always have equal length;
  - the deal hands out every card of the deck.

The model uses parameters for three things the program gets from outside:
- the random shuffle order;
- the random coin in `StartPlayer`;
- the Guid, DateTime and JSON text formats.

The converter's `Read` looks each property's field up with `GetField` and
uses the result without a null check. A payload naming a field that the type
does not declare therefore throws NullReferenceException
(`ReadMembersNeedsKnownNames`). Its token loop also walks into an array that
no branch reads: the members of the objects inside are read as members of the
outer object (`ReadArrayItems`, `ArrayMembersReadAsOuter`).

## Model

| member | source | states |
|---|---|---|
| `Json.LastIndexOf` | HighAndLow/CustomTempDataSerializer.cs:139-140 | the index found holds the name, and no later member has it; None only when no member has it |
| `Json.Property` | HighAndLow/CustomTempDataSerializer.cs:139-140 | GetProperty finds a value exactly when some member has the name |
| `ClrTypes.Resolve` | HighAndLow/CustomTempDataSerializer.cs:93 | Type.GetType yields null exactly for a name that is neither a framework type nor a registered one |
| `ClrTypes.NatToString` | HighAndLow/CustomTempDataSerializer.cs:183 | the decimal text of a number is non-empty and all digits |
| `ClrTypes.NatToStringRoundTrip` | HighAndLow/CustomTempDataSerializer.cs:183 | reading the digits back gives the number |
| `ClrTypes.IntToStringRoundTrip` | HighAndLow/CustomTempDataSerializer.cs:112 | an integer's text, with its sign, parses back to the integer and is never taken for a member name |
| `ClrTypes.IndexOfName` | HighAndLow/CustomTempDataSerializer.cs:112 | Enum.Parse finds the first member with the name, or reports that none has it |
| `ClrTypes.EnumNameRoundTrip` | HighAndLow/CustomTempDataSerializer.cs:183 | Enum.Parse of Enum.ToString gives back the ordinal, whether or not a member is defined for the ordinal |
| `ClrTypes.EnumToString` | HighAndLow/CustomTempDataSerializer.cs:183 | a defined ordinal is written as its member's name; an undefined one as its digits, which parse back to it and are never a member name |
| `ClrTypes.EnumParse` | HighAndLow/CustomTempDataSerializer.cs:112 | a name wins over a number: the result is the first member with the name, else the number the text spells; ArgumentException exactly when it is neither; OverflowException otherwise |
| `JsonSerializableConverter.NumberJson` | HighAndLow/CustomTempDataSerializer.cs:492-498 | WriteNumber emits a JSON number, an integer literal for every type but decimal |
| `JsonSerializableConverter.WriteField` | HighAndLow/CustomTempDataSerializer.cs:472-514 | a null in a reference-type field is skipped; a null Nullable<T> fails to bind; a value of a value type that no branch handles is skipped; a written member carries the field's name and is never an object or an array |
| `JsonSerializableConverter.WriteFields` | HighAndLow/CustomTempDataSerializer.cs:470-515 | writing the fields never raises the serializer's own InvalidOperationException |
| `JsonSerializableConverter.ConverterWrite` | HighAndLow/CustomTempDataSerializer.cs:462-518 | Write produces one JSON object |
| `JsonSerializableConverter.StjWrite` | HighAndLow/CustomTempDataSerializer.cs:265-268 | JsonSerializer with the converter fails only with framework exceptions |
| `JsonSerializableConverter.StjWriteItems` | HighAndLow/CustomTempDataSerializer.cs:265-268 | a list serializes to an array of the same length |
| `JsonSerializableConverter.FieldIndex` | HighAndLow/CustomTempDataSerializer.cs:344 | GetField finds a field with the name, or null when no field has it |
| `JsonSerializableConverter.ReadInteger` | HighAndLow/CustomTempDataSerializer.cs:363-367 | GetInt64 and Convert.ChangeType give a value assignable to the int, long or short field |
| `JsonSerializableConverter.ReadFieldValue` | HighAndLow/CustomTempDataSerializer.cs:354-384 | what a branch assigns fits the field's type; a plain enum field is never assigned (Enum.Parse gets a null type); the field is left alone exactly when no branch is for its type |
| `JsonSerializableConverter.ReadMember` | HighAndLow/CustomTempDataSerializer.cs:340-385 | one property read keeps one value per field; an object goes through ReadObject, a scalar through its field's branch, and an array no branch reads is walked by ReadArrayItems |
| `JsonSerializableConverter.ReadMembers` | HighAndLow/CustomTempDataSerializer.cs:333-388 | the read loop keeps one value per field |
| `JsonSerializableConverter.ReadArrayItems` | HighAndLow/CustomTempDataSerializer.cs:333-386 | inside an unread array the loop skips the start, end and scalar tokens and reads every object's members as members of the outer object, keeping one value per field |
| `JsonSerializableConverter.ReadObject` | HighAndLow/CustomTempDataSerializer.cs:391-459 | a nested object is read only when its first member is the TypeDiscriminator string and its second the ValueObject, and the ValueObject's spliced ValueSpans form JSON: every name and value a string of spaces |
| `JsonSerializableConverter.EmptyObjectRead` | HighAndLow/CustomTempDataSerializer.cs:351 | Deserialize of "{}" succeeds only for an IJsonSerializable type registered as one, and gives its default instance |
| `JsonSerializableConverter.EmptyObjectReadAgrees` | HighAndLow/CustomTempDataSerializer.cs:351 | that reading of "{}" is JsonSerializer's own reading of an empty object |
| `JsonSerializableConverter.ReadBlankValueObject` | HighAndLow/CustomTempDataSerializer.cs:424-459 | a ValueObject of blank names and blank string values reads like the empty ValueObject; any other one is refused with JsonException |
| `JsonSerializableConverter.ConverterRead` | HighAndLow/CustomTempDataSerializer.cs:322-389 | anything but an object is a JsonException; a result is an instance of the requested type with one value per declared field; an object without members is the default instance |
| `JsonSerializableConverter.StjRead` | HighAndLow/CustomTempDataSerializer.cs:149 | the value read has the type asked for, and null only where that type admits null |
| `JsonSerializableConverter.StjReadItems` | HighAndLow/CustomTempDataSerializer.cs:149 | a JSON array deserializes to a list of the same length |
| `JsonSerializableConverter.Write` | HighAndLow/CustomTempDataSerializer.cs:462-518 | the field loop emits exactly ConverterWrite's object |
| `JsonSerializableConverter.Read` | HighAndLow/CustomTempDataSerializer.cs:322-389 | the token loop gives exactly ConverterRead's result: JsonException unless the input starts with an object, otherwise an instance of the requested type |
| `JsonSerializableConverter.ReadMembersKeepsUnnamed` | HighAndLow/CustomTempDataSerializer.cs:333-388 | a field that the payload does not name keeps the default instance's value |
| `JsonSerializableConverter.ReadMemberKeepsUnnamed` | HighAndLow/CustomTempDataSerializer.cs:340-385 | one property leaves every field of another name untouched |
| `JsonSerializableConverter.ReadArrayItemsKeepsUnnamed` | HighAndLow/CustomTempDataSerializer.cs:333-386 | walking an array leaves every field that no object inside it names untouched |
| `JsonSerializableConverter.ArrayMembersReadAsOuter` | HighAndLow/CustomTempDataSerializer.cs:333-386 | {"number":1,"cardImage":[{"number":5}]} read with an unread cardImage field leaves number 5: the inner member overwrites the outer one |
| `JsonSerializableConverter.ArrayMembersNeedFields` | HighAndLow/CustomTempDataSerializer.cs:344-354 | {"cardImage":[{"zzz":0}]}: a name inside the array that is no field makes IsEnum dereference null (NullReferenceException) |
| `JsonSerializableConverter.ReadMembersNeedsKnownNames` | HighAndLow/CustomTempDataSerializer.cs:344-359 | a read succeeds only if every property names a declared field; otherwise `field` is null and is dereferenced |
| `JsonSerializableConverter.ReadFlatMember` | HighAndLow/CustomTempDataSerializer.cs:354-384 | a non-object property sets its field to the value its branch reads; when no branch applies an array is walked for nested members and anything else leaves the fields as they were |
| `JsonSerializableConverter.WriteFieldShape` | HighAndLow/CustomTempDataSerializer.cs:474-514 | a written field carries its name and is neither an object nor an array; a skipped field is one Read would not restore |
| `JsonSerializableConverter.WriteFieldThenRead` | HighAndLow/CustomTempDataSerializer.cs:474-514 | reading back a written field sets exactly that field, and only when its kind is one Read restores |
| `JsonSerializableConverter.WrittenFieldRead` | HighAndLow/CustomTempDataSerializer.cs:354-384 | Read's branch for the field's type gives back the written value, or ignores it when no branch matches |
| `JsonSerializableConverter.WriteFieldsThenRead` | HighAndLow/CustomTempDataSerializer.cs:470-515 | reading all written fields restores every kept field and leaves the others at their defaults |
| `JsonSerializableConverter.ConverterRoundTrip` | HighAndLow/CustomTempDataSerializer.cs:462-518 | for a registry with no plain-enum fields (see ConverterReadRefusesPlainEnum for the rest): Read of Write's object gives the object with each restorable field restored and every other field at its default |
| `JsonSerializableConverter.WriteFieldsThenReadPlainEnum` | HighAndLow/CustomTempDataSerializer.cs:354-358 | once the written members reach a field declared as a plain enum, Read throws ArgumentNullException |
| `JsonSerializableConverter.ConverterReadRefusesPlainEnum` | HighAndLow/CustomTempDataSerializer.cs:354-358 | the case the round trips leave out: an object whose type declares a plain enum field is written, but reading it back, by the converter or by JsonSerializer, throws ArgumentNullException |
| `JsonSerializableConverter.StjRoundTrip` | HighAndLow/CustomTempDataSerializer.cs:265-268 | for any well-typed value, in a registry that declares no plain-enum field: JsonSerializer reads back what it wrote, scalars unchanged, objects and lists of objects restored field by field |
| `JsonSerializableConverter.StjAggregateRoundTrip` | HighAndLow/CustomTempDataSerializer.cs:319-320 | the round trip for an IJsonSerializable object goes through the converter |
| `JsonSerializableConverter.ObjectsGoThroughConverter` | HighAndLow/CustomTempDataSerializer.cs:319-320 | CanConvert sends an IJsonSerializable object to the converter both for writing and for reading |
| `JsonSerializableConverter.StjListRoundTrip` | HighAndLow/CustomTempDataSerializer.cs:265-268 | a list is read back with the same length and order, each element restored |
| `JsonSerializableConverter.StjReadList` | HighAndLow/CustomTempDataSerializer.cs:149 | a JSON array read as a list type is its elements read as the element type |
| `JsonSerializableConverter.StjItemRoundTrip` | HighAndLow/CustomTempDataSerializer.cs:265-268 | one list element, read as the list's element type (a Nullable<T> element type included), comes back restored |
| `JsonSerializableConverter.StjScalarRoundTrip` | HighAndLow/CustomTempDataSerializer.cs:149 | a scalar is read back unchanged as its own type |
| `JsonSerializableConverter.StjItemsRoundTrip` | HighAndLow/CustomTempDataSerializer.cs:149 | the elements of an array are all read back restored, in order |
| `CustomTempDataSerializer.ListJson` | HighAndLow/CustomTempDataSerializer.cs:251-263 | one entry per element, written exactly when no element is null and every element serializes |
| `CustomTempDataSerializer.WriteListToJson` | HighAndLow/CustomTempDataSerializer.cs:251-263 | the loop writes exactly ListJson's array |
| `CustomTempDataSerializer.EntryJson` | HighAndLow/CustomTempDataSerializer.cs:167-237 | the serializer's own InvalidOperationException happens exactly for a non-null value whose type CanSerializeType refuses, with that type's name; an accepted value is written under its key |
| `CustomTempDataSerializer.SwitchJson` | HighAndLow/CustomTempDataSerializer.cs:178-237 | the type switch writes every accepted value under its key and fails only with framework exceptions |
| `CustomTempDataSerializer.WriteEntry` | HighAndLow/CustomTempDataSerializer.cs:167-237 | one pass of the loop writes exactly EntryJson's member |
| `CustomTempDataSerializer.EntriesJson` | HighAndLow/CustomTempDataSerializer.cs:165-238 | the dictionary is written exactly when every entry is |
| `CustomTempDataSerializer.SerializedForm` | HighAndLow/CustomTempDataSerializer.cs:153-249 | a null or empty dictionary gives the empty byte array; anything else gives a JSON object document |
| `CustomTempDataSerializer.Serialize` | HighAndLow/CustomTempDataSerializer.cs:153-249 | the write loop produces exactly SerializedForm |
| `CustomTempDataSerializer.EntriesJsonFirstError` | HighAndLow/CustomTempDataSerializer.cs:165-176 | writing stops at the first entry that fails, with that entry's exception |
| `CustomTempDataSerializer.SerializeRefusesType` | HighAndLow/CustomTempDataSerializer.cs:173-176 | a value of a type CanSerializeType refuses, after entries that write, makes Serialize throw InvalidOperationException naming the type |
| `CustomTempDataSerializer.CanSerializeType` | HighAndLow/CustomTempDataSerializer.cs:283-303 | with Nullable unwrapped, refused exactly: short, any type outside the list, and a Nullable of a Nullable; Nullable<T> is accepted exactly when T is |
| `CustomTempDataSerializer.RefusalMessageInjective` | HighAndLow/CustomTempDataSerializer.cs:306-314 | the serializer's two messages never coincide and each names its type, so the message determines the refusal |
| `CustomTempDataSerializer.MessageKind` | HighAndLow/CustomTempDataSerializer.cs:306-314 | the two messages differ at their ninth character, "Can not store" against "Can not deserialize" |
| `CustomTempDataSerializer.NumberFrom` | HighAndLow/CustomTempDataSerializer.cs:50-64 | a number entry becomes an int, a long or a decimal |
| `CustomTempDataSerializer.StringFrom` | HighAndLow/CustomTempDataSerializer.cs:66-79 | a string stays text exactly when it reads as neither a Guid nor a DateTime; a Guid reading wins |
| `CustomTempDataSerializer.TagFrom` | HighAndLow/CustomTempDataSerializer.cs:88-103 | the inner scan fails exactly when some TypeDiscriminator is not a string, with ArgumentNullException for null and InvalidOperationException otherwise |
| `CustomTempDataSerializer.DeserializeText` | HighAndLow/CustomTempDataSerializer.cs:141 | a null text or type is ArgumentNullException, text that is not JSON a JsonException, and printed JSON is read as JsonSerializer reads that document |
| `CustomTempDataSerializer.ElementFrom` | HighAndLow/CustomTempDataSerializer.cs:137-141 | a non-object element raises InvalidOperationException; an element is read only from an object whose TypeDiscriminator string names a type and whose ValueObject is a string |
| `CustomTempDataSerializer.ElementsFrom` | HighAndLow/CustomTempDataSerializer.cs:137-144 | a list is rebuilt with one element per array item, each of the list's element type |
| `CustomTempDataSerializer.ObjectFrom` | HighAndLow/CustomTempDataSerializer.cs:131-151 | a registered list type comes from an array, one element per item, each of the element type; any other type from the ValueObject's text |
| `CustomTempDataSerializer.DeserializeObject` | HighAndLow/CustomTempDataSerializer.cs:131-151 | the loop over the array gives exactly ObjectFrom's value |
| `CustomTempDataSerializer.EntryFrom` | HighAndLow/CustomTempDataSerializer.cs:43-123 | an array entry raises InvalidOperationException with kind "Array"; only a tagged object is ever skipped |
| `CustomTempDataSerializer.TaggedValueFrom` | HighAndLow/CustomTempDataSerializer.cs:110-117 | an enum entry is parsed from its string by Enum.Parse as a value of that enum; a null string is ArgumentNullException |
| `CustomTempDataSerializer.DictionaryFrom` | HighAndLow/CustomTempDataSerializer.cs:40-126 | keys already present stay present |
| `CustomTempDataSerializer.DeserializeDictionary` | HighAndLow/CustomTempDataSerializer.cs:36-129 | the loop over the root's members gives exactly DictionaryFrom's dictionary |
| `CustomTempDataSerializer.DeserializedForm` | HighAndLow/CustomTempDataSerializer.cs:19-34 | null bytes raise ArgumentNullException, the empty array gives the empty dictionary, and bytes that are not JSON raise JsonException |
| `CustomTempDataSerializer.Deserialize` | HighAndLow/CustomTempDataSerializer.cs:19-34 | Deserialize gives exactly DeserializedForm |
| `CustomTempDataSerializer.DictionaryFirstError` | HighAndLow/CustomTempDataSerializer.cs:40-123 | reading stops at the first entry that fails, with that entry's exception |
| `CustomTempDataSerializer.TagFromFindsLast` | HighAndLow/CustomTempDataSerializer.cs:88-103 | the inner loop keeps the last ValueObject and the type that the last TypeDiscriminator names |
| `CustomTempDataSerializer.TaggedEntrySkipped` | HighAndLow/CustomTempDataSerializer.cs:105-108 | a tagged object is skipped exactly when its ValueObject is missing, or its TypeDiscriminator is missing or names no type |
| `CustomTempDataSerializer.SkippedEntryIgnored` | HighAndLow/CustomTempDataSerializer.cs:105-108 | a skipped entry changes nothing: the dictionary is the one read without it, so every other entry still decodes |
| `CustomTempDataSerializer.ResolveFullName` | HighAndLow/CustomTempDataSerializer.cs:182 | Type.GetType of a known type's FullName finds that type again |
| `CustomTempDataSerializer.TaggedMembers` | HighAndLow/CustomTempDataSerializer.cs:88-103 | the inner loop over a written pair finds its type and its value |
| `CustomTempDataSerializer.ElementFromTagged` | HighAndLow/CustomTempDataSerializer.cs:139-141 | a written list element is deserialized from its ValueObject text as the type its discriminator names |
| `CustomTempDataSerializer.EntryFromTagged` | HighAndLow/CustomTempDataSerializer.cs:105-117 | a written tagged entry goes to Enum.Parse or to DeserializeObject by the type its discriminator names |
| `CustomTempDataSerializer.ElementRoundTrip` | HighAndLow/CustomTempDataSerializer.cs:257-259 | an element written with its own discriminator is read back restored and accepted by the list, a List<Nullable<T>> included |
| `CustomTempDataSerializer.ListRoundTrip` | HighAndLow/CustomTempDataSerializer.cs:251-263 | the elements WriteListToJson writes are read back with the same length and order, each restored |
| `CustomTempDataSerializer.EnumEntryRoundTrip` | HighAndLow/CustomTempDataSerializer.cs:180-185 | an enum entry is always written, and read back as the same enum value |
| `CustomTempDataSerializer.AggregateEntryRoundTrip` | HighAndLow/CustomTempDataSerializer.cs:215-220 | an IJsonSerializable entry that is written is read back as the converter restores it |
| `CustomTempDataSerializer.AggregateEntryRefusesPlainEnum` | HighAndLow/CustomTempDataSerializer.cs:215-220 | an object whose type declares a plain enum field is stored, but reading the entry back throws ArgumentNullException |
| `CustomTempDataSerializer.ListEntryRoundTrip` | HighAndLow/CustomTempDataSerializer.cs:222-227 | a list entry that is written is read back as a list of the same type, length and order |
| `CustomTempDataSerializer.NullableIntListRoundTrip` | HighAndLow/CustomTempDataSerializer.cs:222-227 | a `List<int?>` holding 5 is stored and read back as the same list: a Nullable element type is accepted |
| `CustomTempDataSerializer.ScalarEntryRoundTrip` | HighAndLow/CustomTempDataSerializer.cs:187-213 | a scalar is read back as its restored form: a long within Int32 range as an int, text that reads as a Guid or DateTime as one, and null as a present null |
| `CustomTempDataSerializer.EntryRoundTrip` | HighAndLow/CustomTempDataSerializer.cs:178-237 | every entry that is written is read back as its restored value |
| `CustomTempDataSerializer.DictionaryFromStep` | HighAndLow/CustomTempDataSerializer.cs:125 | a decoded entry is stored under its name before the rest are read |
| `CustomTempDataSerializer.EntriesRoundTrip` | HighAndLow/CustomTempDataSerializer.cs:165-238 | reading back the written entries gives the restored dictionary |
| `CustomTempDataSerializer.SerializeThenDeserialize` | HighAndLow/CustomTempDataSerializer.cs:153-249 | for well-typed values in a registry that declares no plain-enum field: Deserialize of Serialize's bytes gives the restored dictionary, and a null dictionary gives the empty one |
| `CustomTempDataSerializer.SerializeThenDeserializePlainEnum` | HighAndLow/CustomTempDataSerializer.cs:153-249 | the dictionaries SerializeThenDeserialize leaves out: storing an object whose type declares a plain enum field succeeds, and Deserialize then throws ArgumentNullException |
| `CustomTempDataSerializer.RestoredMapContents` | HighAndLow/CustomTempDataSerializer.cs:125 | with distinct keys the restored dictionary has exactly the entries' keys, each mapped to its entry's restored value |
| `PlayingCards.MarkIndex` | HighAndLow/Cards.cs:136-142 | each mark has its position in the declared order Spade, Heart, Diamond, Club |
| `PlayingCards.Wrap32` | HighAndLow/Cards.cs:165-173 | C# int arithmetic: the same value inside Int32, and congruent modulo 2^32 always |
| `PlayingCards.FrontCodePoint` | HighAndLow/Cards.cs:160-194 | for numbers 1..13 the face lies in its mark's row from base to base+13, and is never the Knight at base+11 |
| `PlayingCards.MarkColor` | HighAndLow/Cards.cs:175-194 | red exactly for Heart and Diamond, black otherwise |
| `PlayingCards.FrontCodePointInjective` | HighAndLow/Cards.cs:160-194 | distinct cards numbered 1..13 have distinct faces |
| `PlayingCards.SizeStyle` | HighAndLow/Cards.cs:257-269 | SMALL gives 5rem, LARGE 25rem, and MIDDLE or any unnamed value 15rem |
| `PlayingCards.CardImage.constructor` | HighAndLow/Cards.cs:158-197 | front face and colour from the mark and number; back face U+1F0A0 |
| `PlayingCards.CardImage.CreateHtmlString` | HighAndLow/Cards.cs:236-255 | the back image is the back face in black, the front image the front face in the mark's colour, each with the size style and line height |
| `PlayingCards.CardImage.BackImageToHtml` | HighAndLow/Cards.cs:210-213 | the back face, in black |
| `PlayingCards.CardImage.FrontImageToHtml` | HighAndLow/Cards.cs:226-229 | the front face, in the card's colour |
| `PlayingCards.CardImage.DefaultBackImageToHtml` | HighAndLow/Cards.cs:203-206 | the parameterless overload is the MIDDLE size |
| `PlayingCards.CardImage.DefaultFrontImageToHtml` | HighAndLow/Cards.cs:219-222 | the parameterless overload is the MIDDLE size |
| `PlayingCards.Card.constructor` | HighAndLow/Cards.cs:117-121 | a card with the given mark and number and no image yet |
| `PlayingCards.Card.Empty` | HighAndLow/Cards.cs:123-125 | a default card has no mark, number 0 and no image |
| `PlayingCards.Card.SetCardImage` | HighAndLow/Cards.cs:127-133 | a new image is made only when the mark is set and the number is non-zero |
| `PlayingCards.Card.GetCardImage` | HighAndLow/Cards.cs:105-115 | the image is created on first use and the same one is returned afterwards |
| `PlayingCards.FaceIndex` | HighAndLow/Cards.cs:29-43 | deck position i holds (mark, number) exactly when i is the mark's position times 13 plus number − 1 |
| `PlayingCards.DeckHoldsEveryFaceOnce` | HighAndLow/Cards.cs:29-43 | every (mark, number) with number 1..13 occurs exactly once in the deck |
| `PlayingCards.AddCardByMark` | HighAndLow/Cards.cs:37-43 | appends 13 new cards of the mark numbered 1 to 13 in order, keeping what was there |
| `PlayingCards.AddCardAllKind` | HighAndLow/Cards.cs:18-35 | the static deck holds 52 new cards; position i holds Face(i) |
| `PlayingCards.Permuted` | HighAndLow/Cards.cs:26 | the shuffled deck puts card order[i] at position i |
| `PlayingCards.PermutedMultiset` | HighAndLow/Cards.cs:26 | a shuffle keeps the same multiset of cards |
| `PlayingCards.Cards.constructor` | HighAndLow/Cards.cs:24-27 | a new deck is a permutation of the static deck, with the same cards |
| `PlayingCards.Cards.Pop` | HighAndLow/Cards.cs:49-52 | the top card is returned and removed; on an empty stack None stands for Stack.Pop's InvalidOperationException and the stack stays empty |
| `PlayingCards.Cards.Drain` | HighAndLow/Cards.cs:58-64 | enumerating yields the remaining cards in order and leaves the stack empty |
| `IndexPage.Judge` | HighAndLow/Pages/Index.cshtml.cs:184-224 | a call is a draw exactly on equal numbers, and right exactly when High finds the own card higher or Low finds it lower |
| `IndexPage.CallerGain` | HighAndLow/Pages/Index.cshtml.cs:184-224 | the caller gains at most 2 |
| `IndexPage.OtherGain` | HighAndLow/Pages/Index.cshtml.cs:184-224 | the two gains of a judgement add up to 2 |
| `IndexPage.Alternate` | HighAndLow/Pages/Index.cshtml.cs:129-142 | an alternate deal gives a side half the deck, the first side the odd card |
| `IndexPage.PlayerFirst` | HighAndLow/Pages/Index.cshtml.cs:129 | the player's first position is 0 or 1 |
| `IndexPage.AlternateAt` | HighAndLow/Pages/Index.cshtml.cs:130-142 | one step of the deal: the card goes to the side whose turn it is, and the turn passes |
| `IndexPage.AlternateCovers` | HighAndLow/Pages/Index.cshtml.cs:123-147 | the two hands together hold every card of the deck |
| `IndexPage.PlayerJudged` | HighAndLow/Pages/Index.cshtml.cs:184-224 | judging the player's call changes only the verdict and the scores, and raises the score total by exactly 2 |
| `IndexPage.EnemyJudged` | HighAndLow/Pages/Index.cshtml.cs:226-272 | the enemy's call, with the roles swapped, changes only the declaration, the verdict and the scores, and raises the total by exactly 2 |
| `IndexPage.CardsNext` | HighAndLow/Pages/Index.cshtml.cs:151-177 | showing the next cards keeps the decks equal in length; with cards left both shown cards are set and each deck shrinks by one |
| `IndexPage.IndexModel.constructor` | HighAndLow/Pages/Index.cshtml.cs:21-65 | the initial TempData values: not started, not ended, scores 0, empty decks |
| `IndexPage.IndexModel.OnGet` | HighAndLow/Pages/Index.cshtml.cs:67-70 | only HasNotStarted changes, to true |
| `IndexPage.IndexModel.EnemyAI` | HighAndLow/Pages/Index.cshtml.cs:274-281 | the enemy calls High exactly when the player's card is below 7, which is EnemyCall's choice |
| `IndexPage.IndexModel.StartPlayer` | HighAndLow/Pages/Index.cshtml.cs:114-120 | the player becomes parent when the coin is 1; nothing else changes |
| `IndexPage.IndexModel.DealAlternately` | HighAndLow/Pages/Index.cshtml.cs:130-142 | the loop deals exactly Alternate's hands: the player's from position 0 when parent, else from 1; the enemy's the other positions |
| `IndexPage.IndexModel.DealCards` | HighAndLow/Pages/Index.cshtml.cs:123-148 | the shuffled deck is dealt alternately, the player first when parent; every card is dealt; 26 each from a full deck; nothing else changes |
| `IndexPage.IndexModel.NextCardShow` | HighAndLow/Pages/Index.cshtml.cs:151-177 | the new state is CardsNext of the old; the decks stay equal in length |
| `IndexPage.IndexModel.PlayerJudgment` | HighAndLow/Pages/Index.cshtml.cs:184-224 | the new state is PlayerJudged of the old: only the verdict and the scores change |
| `IndexPage.IndexModel.EnemyJudgment` | HighAndLow/Pages/Index.cshtml.cs:226-272 | the new state is EnemyJudged of the old: only the declaration, the verdict and the scores change |
| `IndexPage.IndexModel.OnPostGameStart` | HighAndLow/Pages/Index.cshtml.cs:73-87 | the whole new state: started, parent chosen by the coin, the shuffled deck dealt alternately parent first, the first cards shown (CardsNext), and EnemyJudged applied when the player is parent; 25 cards left in each deck; the total rises by 2 exactly when the enemy calls |
| `IndexPage.IndexModel.OnPostNextTurn` | HighAndLow/Pages/Index.cshtml.cs:90-111 | the whole new state: ShowResult flips; showing applies PlayerJudged when the enemy is parent; hiding passes the parent role, applies CardsNext, then EnemyJudged when the player is now parent; the total rises by 2 exactly on a judging turn |

## Left out

- UTF-8 bytes, Utf8JsonWriter, Utf8JsonReader and JsonDocument token handling are not modelled. Every JSON document is an abstract tree. `Bytes.NotJson` stands for any byte array that JsonDocument.Parse rejects.
- ReadObject: ReadValue splices raw token bytes together. The model keeps the outcome: the splice is JSON exactly when every name and value of the ValueObject is a string of spaces. The tree keeps strings decoded, so a string written with escapes (such as `\u0020`) is taken as written plainly.
- Reflection is replaced by the `Registry`. This covers Type.GetType, GetFields, Activator.CreateInstance, FieldInfo.SetValue, `dynamic` and Convert.ChangeType. A value whose type the registry lacks, or whose fields disagree with it, ends in `Unmodelled(...)` instead of behaviour.
- JsonSerializer's reflection-based handling of other classes is not modelled (`Unmodelled(ReflectionWrite(...))` and `Unmodelled(ReflectionRead(...))`). This includes a non-list IEnumerable stored under the `IEnumerable` case.
- float and double are not modelled. IsDecimal is modelled as decimal only.
- Decimal arithmetic is not modelled. A decimal is its literal (mantissa, scale), bounded by 96 bits and scale 28. Exponent literals are not modelled.
- The Guid and DateTime text forms, and JSON text printing and parsing, are parameters (`Formats`). The round trips assume `Coherent` of them.
- Enum.Parse is modelled only for an exact name or a decimal integer. Leading or trailing whitespace, a '+' sign, and comma-separated flag names are not modelled.
- Exceptions are `Error` constructors, not messages. `RefusalMessage` gives the text of the serializer's own two messages.
- RefusalMessage: the source interpolates `Type.ToString()`, and the model passes `FullName`. They differ for a generic type, whose FullName spells the type arguments assembly-qualified.
- Enum values: an enum's members take the ordinals 0, 1, 2, … in declaration order. Explicit member values, repeated values and [Flags] enums are not modelled.
- StjRoundTrip: stated only for a registry in which no IJsonSerializable type declares a plain (non-Nullable) enum field. For such a field Read passes a null type to Enum.Parse; ConverterReadRefusesPlainEnum proves the ArgumentNullException instead.
- ConverterRoundTrip: the same exclusion of plain enum fields, for the same reason (ConverterReadRefusesPlainEnum).
- SerializeThenDeserialize: the same exclusion of plain enum fields; SerializeThenDeserializePlainEnum proves that such a stored object makes Deserialize throw ArgumentNullException.
- GetSerializerOptions' lazily created static options are not modelled; the converter is always registered.
- CanSerializeType's ArgumentNullException for a null type cannot occur: every value the model stores has a type.
- The random order of `OrderBy(Guid.NewGuid())` is a permutation parameter. The coin of `RandomNumberGenerator.GetInt32(0, 2)` is a parameter too.
- `new Stack<Card>(...)` pops the shuffled sequence last-first. The order is arbitrary anyway, so the permutation parameter gives the stack top-first directly (`Cards.shuffledCards`).
- HtmlString and char.ConvertFromUtf32 are not modelled. A rendered image is its code point, colour style, size style and line height (`Span`).
- The Card.Mark getter's InvalidOperationException on a card without a mark is not modelled: SetCardImage only reads the mark once it knows it is set.
- The enumerator of `Cards` is drained eagerly (`Drain`), as the `foreach` in DealCards consumes it whole. Pausing a lazy iterator halfway is not modelled.
- The ASP.NET page is left out: PageModel, TempData and BindProperty binding, IActionResult, the logger and the empty JudgmentShow.
- A null List or string on the page is an empty `seq` or `None`.
- Scores are unbounded integers. OnPostGameStart never resets PlayerVictry or EnemyVictry, so the scores accumulate across games; a C# `int` overflow needs more than 40 million games (a score grows by at most 2 per turn) and is not modelled.
- IndexModel.OnPostNextTurn: requires both current cards to be shown, as after OnPostGameStart. Posting NextTurn before a game has started makes the source dereference a null card. This is not modelled.
- IndexModel.OnPostNextTurn: when the last turn ends the game, ResultMessage is fixed from the scores before the enemy's final call (if any) is scored, exactly as the source orders it.
- ObjectFrom: a `ListInfo` type stands for a `List<T>`, which Activator.CreateInstance can build. A C# array is an IList as well, and Serialize writes it through the same branch, but reading it back throws MissingMethodException because an array has no parameterless constructor. Arrays are not modelled.
- Lists hold values of one declared element type. Assignment to a base class or interface slot (subtyping) is not modelled.
