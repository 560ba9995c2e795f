/**
  An abstract JSON document tree: what System.Text.Json's JsonDocument exposes
  to the TempData serializer, without the UTF-8 bytes underneath.
*/
module Json {
  import opened Wrappers

  /**
    A JSON value. A number keeps the literal it was written as: `mantissa`
    scaled by ten to the power minus `scale`, so "-12.50" is JNumber(-1250, 2)
    and an integer literal has scale 0. Object members keep their order and
    may repeat a name, as JsonDocument allows.
  */
  datatype Json =
    | JNull
    | JBool(b: bool)
    | JNumber(mantissa: int, scale: nat)
    | JString(s: string)
    | JArray(items: seq<Json>)
    | JObject(members: seq<Member>)

  datatype Member = Member(name: string, value: Json)

  /** Index of the last member called `name`, if any. */
  function LastIndexOf(ms: seq<Member>, name: string): (r: Option<nat>)
    ensures r.Some? ==> r.value < |ms| && ms[r.value].name == name
    ensures r.Some? ==> forall k :: r.value < k < |ms| ==> ms[k].name != name
    ensures r.None? ==> forall k :: 0 <= k < |ms| ==> ms[k].name != name
  {
    if ms == [] then None
    else if ms[|ms| - 1].name == name then Some(|ms| - 1)
    else LastIndexOf(ms[..|ms| - 1], name)
  }

  /**
    JsonElement.GetProperty / TryGetProperty: the value of the member called
    `name`; when the name repeats, the last such member is the one found.
  */
  function Property(ms: seq<Member>, name: string): (r: Option<Json>)
    ensures r.Some? <==> exists k :: 0 <= k < |ms| && ms[k].name == name
  {
    match LastIndexOf(ms, name)
    case None => None
    case Some(k) => Some(ms[k].value)
  }

  lemma PropertyOfSingleName(ms: seq<Member>, name: string, k: nat)
    requires k < |ms| && ms[k].name == name
    requires forall i :: 0 <= i < |ms| && i != k ==> ms[i].name != name
    ensures Property(ms, name) == Some(ms[k].value)
  {
  }

  /** Looking a name up in a member list with one more member in front. */
  lemma {:induction false} LastIndexOfCons(m: Member, rest: seq<Member>, name: string)
    ensures LastIndexOf([m] + rest, name)
      == match LastIndexOf(rest, name)
         case Some(k) => Some(k + 1)
         case None => if m.name == name then Some(0) else None
    decreases |rest|
  {
    var ms := [m] + rest;
    if rest != [] {
      assert ms[|ms| - 1] == rest[|rest| - 1];
      if rest[|rest| - 1].name != name {
        assert ms[..|ms| - 1] == [m] + rest[..|rest| - 1];
        LastIndexOfCons(m, rest[..|rest| - 1], name);
      }
    }
  }

  lemma PropertyOfCons(m: Member, rest: seq<Member>, name: string)
    ensures Property([m] + rest, name)
      == if Property(rest, name).Some? then Property(rest, name) else if m.name == name then Some(m.value) else None
  {
    LastIndexOfCons(m, rest, name);
  }
}
