// The `uuid` command argument: a UUID written with or without its dashes,
// optionally restricted to a configured selection.

module UuidArgument {

  import opened Outcomes

  /** The ways `parse` refuses its input. `Malformed` is `UUID.fromString` refusing the normalised text. */
  datatype ParseError = NullInput | DashedLength | CompactLength | Malformed | InvalidInput

  /** The messages of the `IllegalArgumentException`s thrown by this argument type itself. */
  function Message(e: ParseError): Option<string> {
    match e
    case NullInput => Some("null")
    case DashedLength => Some("UUIDs that have the '-' seperator have to be 36 characters long.")
    case CompactLength => Some("UUIDs that don't have the '-' seperator have to be 32 characters long.")
    case InvalidInput => Some("Invalid input")
    case Malformed => None
  }

  /** The 8-4-4-4-12 groups of a 32-character text, joined by dashes. */
  function Dashed(v: string): (r: string)
    requires |v| == 32
    ensures |r| == 36
    ensures r[8] == '-' && r[13] == '-' && r[18] == '-' && r[23] == '-'
  {
    v[..8] + "-" + v[8..12] + "-" + v[12..16] + "-" + v[16..20] + "-" + v[20..32]
  }

  function RemoveDashes(s: string): (r: string)
    ensures |r| <= |s|
    ensures '-' !in r
  {
    if s == [] then []
    else if s[0] == '-' then RemoveDashes(s[1..])
    else [s[0]] + RemoveDashes(s[1..])
  }

  /** The text `uuidFromString` hands to `UUID.fromString`, or the check that refuses it. */
  function Normalise(value: Option<string>): (r: Result<string, ParseError>)
    ensures value.None? <==> r == Err(NullInput)
    ensures value.Some? && '-' in value.value ==> (|value.value| == 36 <==> r.Ok?)
    ensures value.Some? && '-' in value.value && |value.value| != 36 ==> r == Err(DashedLength)
    ensures value.Some? && '-' !in value.value ==> (|value.value| == 32 <==> r.Ok?)
    ensures value.Some? && '-' !in value.value && |value.value| != 32 ==> r == Err(CompactLength)
    ensures r.Ok? ==> |r.value| == 36 && '-' in r.value
  {
    match value
    case None => Err(NullInput)
    case Some(v) =>
      if '-' in v then
        if |v| != 36 then Err(DashedLength) else Ok(v)
      else if |v| != 32 then Err(CompactLength)
      else Ok(Dashed(v))
  }

  /** `uuidFromString(value)`, with `UUID.fromString` given as `decode` (`None`: it throws). */
  function UuidFromString<U>(value: Option<string>, decode: string -> Option<U>): (r: Result<U, ParseError>)
    ensures Normalise(value).Err? ==> r == Err(Normalise(value).error)
    ensures Normalise(value).Ok? && decode(Normalise(value).value).None? ==> r == Err(Malformed)
    ensures Normalise(value).Ok? && decode(Normalise(value).value).Some? ==> r == Ok(decode(Normalise(value).value).value)
  {
    match Normalise(value)
    case Err(e) => Err(e)
    case Ok(text) =>
      match decode(text)
      case None => Err(Malformed)
      case Some(u) => Ok(u)
  }

  /** The two final fields the constructor fixes. */
  datatype Argument<U> = Argument(collection: bool, selection: seq<U>)

  /** The constructor, given the `collection` array of the argument map (`None`: `null`). */
  function Create<U>(uuids: Option<seq<U>>): (a: Argument<U>)
    ensures a.collection <==> uuids.Some? && |uuids.value| > 0
    ensures a.collection ==> a.selection == uuids.value
    ensures !a.collection ==> a.selection == []
  {
    if uuids.None? || |uuids.value| == 0 then Argument(false, [])
    else Argument(true, uuids.value)
  }

  /** `parse(actor, input)`: in collection mode only members of the selection are accepted. */
  function Parse<U(==)>(a: Argument<U>, input: Option<string>, decode: string -> Option<U>): (r: Result<U, ParseError>)
    ensures UuidFromString(input, decode).Err? ==> r == UuidFromString(input, decode)
    ensures r.Ok? ==> r == UuidFromString(input, decode)
    ensures r.Ok? && a.collection ==> r.value in a.selection
    ensures UuidFromString(input, decode).Ok? && !a.collection ==> r.Ok?
    ensures UuidFromString(input, decode).Ok? && a.collection && UuidFromString(input, decode).value !in a.selection
      ==> r == Err(InvalidInput)
  {
    match UuidFromString(input, decode)
    case Err(e) => Err(e)
    case Ok(u) =>
      if a.collection && u !in a.selection then Err(InvalidInput) else Ok(u)
  }

  lemma {:induction false} RemoveDashesAppend(a: string, b: string)
    ensures RemoveDashes(a + b) == RemoveDashes(a) + RemoveDashes(b)
  {
    if a == [] {
      assert a + b == b;
    } else {
      assert (a + b)[1..] == a[1..] + b;
      RemoveDashesAppend(a[1..], b);
    }
  }

  lemma {:induction false} RemoveDashesFree(s: string)
    requires '-' !in s
    ensures RemoveDashes(s) == s
  {
    if s != [] {
      assert s[0] != '-';
      assert '-' !in s[1..];
      RemoveDashesFree(s[1..]);
    }
  }

  lemma DashJoin(a: string, b: string)
    ensures RemoveDashes(a + "-" + b) == RemoveDashes(a) + RemoveDashes(b)
  {
    RemoveDashesAppend(a + "-", b);
    RemoveDashesAppend(a, "-");
    assert RemoveDashes("-") == [];
  }

  /** Removing the dashes of five dash-free groups joined by dashes concatenates the groups. */
  lemma GroupsUndashed(g1: string, g2: string, g3: string, g4: string, g5: string)
    requires '-' !in g1 && '-' !in g2 && '-' !in g3 && '-' !in g4 && '-' !in g5
    ensures RemoveDashes(g1 + "-" + g2 + "-" + g3 + "-" + g4 + "-" + g5) == g1 + g2 + g3 + g4 + g5
  {
    RemoveDashesFree(g1);
    RemoveDashesFree(g2);
    RemoveDashesFree(g3);
    RemoveDashesFree(g4);
    RemoveDashesFree(g5);
    var p1 := g1 + "-" + g2;
    var p2 := p1 + "-" + g3;
    var p3 := p2 + "-" + g4;
    DashJoin(g1, g2);
    DashJoin(p1, g3);
    DashJoin(p2, g4);
    DashJoin(p3, g5);
  }

  /** Removing the dashes of the dashed form gives back the compact input. */
  lemma DashedRoundTrip(v: string)
    requires |v| == 32 && '-' !in v
    ensures RemoveDashes(Dashed(v)) == v
  {
    var g1, g2, g3, g4, g5 := v[..8], v[8..12], v[12..16], v[16..20], v[20..32];
    assert v == g1 + g2 + g3 + g4 + g5;
    assert '-' !in g1 && '-' !in g2 && '-' !in g3 && '-' !in g4 && '-' !in g5;
    GroupsUndashed(g1, g2, g3, g4, g5);
  }

  /** A dashed-form text with exactly its four dashes splits into dash-free groups. */
  lemma DashedGroups(s: string)
    requires |s| == 36
    requires forall i :: 0 <= i < 36 ==> (s[i] == '-' <==> i == 8 || i == 13 || i == 18 || i == 23)
    ensures s == s[..8] + "-" + s[9..13] + "-" + s[14..18] + "-" + s[19..23] + "-" + s[24..]
    ensures '-' !in s[..8] && '-' !in s[9..13] && '-' !in s[14..18] && '-' !in s[19..23] && '-' !in s[24..]
  {
    assert s[8] == '-' && s[13] == '-' && s[18] == '-' && s[23] == '-';
    assert s == s[..8] + [s[8]] + s[9..13] + [s[13]] + s[14..18] + [s[18]] + s[19..23] + [s[23]] + s[24..];
    forall i | 0 <= i < 8 ensures s[..8][i] != '-' { }
    forall i | 0 <= i < 4 ensures s[9..13][i] != '-' && s[14..18][i] != '-' && s[19..23][i] != '-' {
      assert s[9..13][i] == s[9 + i] && s[14..18][i] == s[14 + i] && s[19..23][i] == s[19 + i];
    }
    forall i | 0 <= i < 12 ensures s[24..][i] != '-' { assert s[24..][i] == s[24 + i]; }
  }

  /** A text in dashed form is the dashed form of its dashes removed. */
  lemma UndashedRoundTrip(s: string)
    requires |s| == 36
    requires forall i :: 0 <= i < 36 ==> (s[i] == '-' <==> i == 8 || i == 13 || i == 18 || i == 23)
    ensures |RemoveDashes(s)| == 32
    ensures Dashed(RemoveDashes(s)) == s
  {
    DashedGroups(s);
    var g1, g2, g3, g4, g5 := s[..8], s[9..13], s[14..18], s[19..23], s[24..];
    GroupsUndashed(g1, g2, g3, g4, g5);
    var v := RemoveDashes(s);
    assert v == g1 + g2 + g3 + g4 + g5;
    assert v[..8] == g1 && v[8..12] == g2 && v[12..16] == g3 && v[16..20] == g4 && v[20..32] == g5;
  }

  /** The compact and the dashed spelling of a UUID parse to the same value. */
  lemma SpellingsAgree<U>(v: string, decode: string -> Option<U>)
    requires |v| == 32 && '-' !in v
    ensures UuidFromString(Some(v), decode) == UuidFromString(Some(Dashed(v)), decode)
  {
    assert Dashed(v)[8] == '-';
  }

  /** With no configured selection every well-formed UUID is accepted. */
  lemma OpenSelectionAcceptsAll<U>(uuids: Option<seq<U>>, input: Option<string>, decode: string -> Option<U>)
    requires uuids.None? || uuids.value == []
    ensures Parse(Create(uuids), input, decode) == UuidFromString(input, decode)
  {
  }
}
