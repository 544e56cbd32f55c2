/**
 * `JsonConfigHandler`: a configuration read from and written to a JSON document.
 *
 * Gson's parsing and printing are outside the model: loading starts from the parsed tree and saving ends
 * with the tree to print. The walk over an object (skip `null` members, load nested objects into
 * sub-configurations, convert and `set` everything else) is shared with `MessageConfigHandler`, which only
 * converts arrays and primitives differently; it is defined here once, with the two conversions as
 * parameters.
 */
module JsonConfig {

  import opened Outcomes
  import opened Text
  import opened Config

  /** A JSON primitive as Gson keeps it. A number carries its text and the integer part of its value
      (`BigDecimal.toBigInteger()`), which the parser supplies. */
  datatype Primitive = PBool(b: bool) | PNumber(text: string, whole: int) | PString(s: string)

  /** A parsed JSON tree. Object members are in document order and their keys are distinct. */
  datatype Json =
    | JNull
    | JPrim(p: Primitive)
    | JArray(elements: seq<Json>)
    | JObject(members: seq<Member>)

  datatype Member = Member(key: string, value: Json)

  /*
   * Integer text
   */

  predicate IsDigit(c: char) {
    '0' <= c <= '9'
  }

  predicate AllDigits(s: string) {
    forall i :: 0 <= i < |s| ==> IsDigit(s[i])
  }

  function DigitsValue(s: string): nat
    requires AllDigits(s)
    decreases |s|
  {
    if s == [] then 0 else 10 * DigitsValue(s[..|s| - 1]) + (s[|s| - 1] as int - '0' as int)
  }

  function NatText(n: nat): (r: string)
    ensures |r| >= 1 && AllDigits(r)
  {
    if n < 10 then [('0' as int + n) as char]
    else NatText(n / 10) + [('0' as int + n % 10) as char]
  }

  /** `BigInteger.toString()`: a minus sign for negative values, then the decimal digits. */
  function IntegerText(i: int): string {
    if i < 0 then "-" + NatText(-i) else NatText(i)
  }

  /** What `new BigInteger(text)` accepts: an optional sign, then at least one digit. */
  predicate IsIntegerText(t: string) {
    if |t| >= 1 && (t[0] == '-' || t[0] == '+') then |t| >= 2 && AllDigits(t[1..]) else |t| >= 1 && AllDigits(t)
  }

  function IntegerValue(t: string): int
    requires IsIntegerText(t)
  {
    if t[0] == '-' then -(DigitsValue(t[1..]) as int)
    else if t[0] == '+' then DigitsValue(t[1..])
    else DigitsValue(t)
  }

  lemma {:induction false} NatTextValue(n: nat)
    ensures DigitsValue(NatText(n)) == n
  {
    if n >= 10 {
      NatTextValue(n / 10);
      var t := NatText(n);
      assert t[..|t| - 1] == NatText(n / 10);
    }
  }

  /** Printing an integer and parsing the text back gives the integer. */
  lemma IntegerTextRoundTrip(i: int)
    ensures IsIntegerText(IntegerText(i)) && IntegerValue(IntegerText(i)) == i
  {
    var t := IntegerText(i);
    if i < 0 {
      NatTextValue(-i);
      assert t[1..] == NatText(-i);
    } else {
      NatTextValue(i);
    }
  }

  /*
   * The object walk shared by both handlers
   */

  /** `loadToConfig(object, configuration)` for the members in order: `null` is skipped, an object is loaded
      into `getConfiguration(key, true)` (which writes through to the root), and an array or a primitive is
      converted and `set` under its key. The first exception ends the walk. */
  function LoadObject(ms: seq<Member>, es: seq<Entry>, fromArray: seq<Json> -> Value, fromPrimitive: Primitive -> Value): Result<seq<Entry>, Failure>
    decreases ms
  {
    if ms == [] then Ok(es)
    else match LoadObject(ms[..|ms| - 1], es, fromArray, fromPrimitive)
      case Err(e) => Err(e)
      case Ok(acc) => LoadMember(ms[|ms| - 1], acc, fromArray, fromPrimitive)
  }

  function LoadMember(m: Member, acc: seq<Entry>, fromArray: seq<Json> -> Value, fromPrimitive: Primitive -> Value): Result<seq<Entry>, Failure>
    decreases m
  {
    match m.value
    case JNull => Ok(acc)
    case JObject(children) =>
      var (found, created) := GetConfigurationSpec(acc, m.key, true);
      GetConfigurationNeverNull(acc, m.key);
      (match LoadObject(children, found.value, fromArray, fromPrimitive)
       case Err(e) => Err(e)
       case Ok(child) => Ok(ReplaceAt(created, Split(m.key, '.'), child)))
    case JArray(a) => SetSpec(acc, m.key, Some(fromArray(a)))
    case JPrim(p) => SetSpec(acc, m.key, Some(fromPrimitive(p)))
  }

  /** `saveToObject(object, configuration)` over the entries in key order: a configuration becomes a nested
      object, any other value is converted and added unless the conversion gives `null`. */
  function SaveObject(es: seq<Entry>, toJson: Value -> Option<Json>): seq<Member>
    decreases es
  {
    if es == [] then []
    else
      var e := es[|es| - 1];
      SaveObject(es[..|es| - 1], toJson) +
        match e.value
        case Section(c) => [Member(e.key, JObject(SaveObject(c, toJson)))]
        case _ => if toJson(e.value).Some? then [Member(e.key, toJson(e.value).value)] else []
  }

  /** `load(configuration, source)` once the source is parsed: a root that is not an object throws. */
  function Load(root: Json, es: seq<Entry>, fromArray: seq<Json> -> Value, fromPrimitive: Primitive -> Value): Result<seq<Entry>, Failure>
  {
    if root.JObject? then LoadObject(root.members, es, fromArray, fromPrimitive) else Err(IllegalState)
  }

  /** `loadToConfig`, over the configuration object; a nested object is loaded through the sub-configuration
      object, whose changes then show in `configuration`. */
  method LoadToConfig(ms: seq<Member>, configuration: Configuration, fromArray: seq<Json> -> Value, fromPrimitive: Primitive -> Value)
    returns (failure: Option<Failure>)
    modifies configuration
    decreases ms
    ensures LoadObject(ms, old(configuration.entries), fromArray, fromPrimitive).Ok? ==>
              failure.None? && configuration.entries == LoadObject(ms, old(configuration.entries), fromArray, fromPrimitive).value
    ensures LoadObject(ms, old(configuration.entries), fromArray, fromPrimitive).Err? ==>
              failure == Some(LoadObject(ms, old(configuration.entries), fromArray, fromPrimitive).error)
  {
    var start := configuration.entries;
    var i := 0;
    while i < |ms|
      invariant 0 <= i <= |ms|
      invariant LoadObject(ms[..i], start, fromArray, fromPrimitive) == Ok(configuration.entries)
    {
      assert ms[..i + 1][..i] == ms[..i] && ms[..i + 1][i] == ms[i];
      failure := LoadMemberInto(ms[i], configuration, fromArray, fromPrimitive);
      if failure.Some? {
        LoadErrKept(ms, i + 1, start, fromArray, fromPrimitive);
        return;
      }
      i := i + 1;
    }
    assert ms[..|ms|] == ms;
    return None;
  }

  /** One member of the walk: a nested object is loaded into the sub-configuration, which is then written back. */
  method LoadMemberInto(m: Member, configuration: Configuration, fromArray: seq<Json> -> Value, fromPrimitive: Primitive -> Value)
    returns (failure: Option<Failure>)
    modifies configuration
    decreases m
    ensures LoadMember(m, old(configuration.entries), fromArray, fromPrimitive).Ok? ==>
              failure.None? && configuration.entries == LoadMember(m, old(configuration.entries), fromArray, fromPrimitive).value
    ensures LoadMember(m, old(configuration.entries), fromArray, fromPrimitive).Err? ==>
              failure == Some(LoadMember(m, old(configuration.entries), fromArray, fromPrimitive).error)
  {
    match m.value {
      case JNull =>
        return None;
      case JObject(children) =>
        var before := configuration.entries;
        var found := configuration.GetConfiguration(m.key, true);
        GetConfigurationNeverNull(before, m.key);
        var child := new Configuration();
        child.entries := found.value;
        failure := LoadToConfig(children, child, fromArray, fromPrimitive);
        if failure.Some? {
          return;
        }
        configuration.entries := ReplaceAt(configuration.entries, Split(m.key, '.'), child.entries);
      case JArray(a) =>
        failure := configuration.Set(m.key, Some(fromArray(a)));
      case JPrim(p) =>
        failure := configuration.Set(m.key, Some(fromPrimitive(p)));
    }
  }

  /** Once a member throws, the walk throws the same exception whatever follows. */
  lemma {:induction false} LoadErrKept(ms: seq<Member>, n: nat, es: seq<Entry>, fromArray: seq<Json> -> Value, fromPrimitive: Primitive -> Value)
    requires n <= |ms| && LoadObject(ms[..n], es, fromArray, fromPrimitive).Err?
    ensures LoadObject(ms, es, fromArray, fromPrimitive) == LoadObject(ms[..n], es, fromArray, fromPrimitive)
    decreases |ms| - n
  {
    if n < |ms| {
      assert ms[..n + 1][..n] == ms[..n];
      LoadErrKept(ms, n + 1, es, fromArray, fromPrimitive);
    } else {
      assert ms[..n] == ms;
    }
  }

  /** `saveToObject`, filling a fresh member list in key order. */
  method SaveToObject(es: seq<Entry>, toJson: Value -> Option<Json>) returns (members: seq<Member>)
    ensures members == SaveObject(es, toJson)
    decreases es
  {
    members := [];
    var i := 0;
    while i < |es|
      invariant 0 <= i <= |es|
      invariant members == SaveObject(es[..i], toJson)
    {
      assert es[..i + 1][..i] == es[..i] && es[..i + 1][i] == es[i];
      var e := es[i];
      match e.value {
        case Section(c) =>
          var child := SaveToObject(c, toJson);
          members := members + [Member(e.key, JObject(child))];
        case _ =>
          var converted := toJson(e.value);
          if converted.Some? {
            members := members + [Member(e.key, converted.value)];
          }
      }
      i := i + 1;
    }
    assert es[..|es|] == es;
  }

  /*
   * The conversions of the JSON handler
   */

  /** `deserialize(JsonPrimitive)`: a boolean, a number whose text `BigInteger` accepts as an integer, another
      number as a `BigDecimal`, and anything else as its string. */
  function FromPrimitive(p: Primitive): Value {
    match p
    case PBool(b) => Bool(b)
    case PNumber(text, whole) => if IsIntegerText(text) then Integral(IntegerValue(text), BigIntegerClass) else Decimal(text, whole)
    case PString(s) => Str(s)
  }

  /** `deserialize(JsonArray)`: objects and `null`s are dropped, a nested array becomes a nested list. */
  function FromArray(a: seq<Json>): (r: seq<Value>)
    ensures |r| <= |a|
    decreases a
  {
    if a == [] then []
    else
      FromArray(a[..|a| - 1]) +
        match a[|a| - 1]
        case JArray(inner) => [List(FromArray(inner))]
        case JPrim(p) => [FromPrimitive(p)]
        case _ => []
  }

  function ArrayToList(a: seq<Json>): Value {
    List(FromArray(a))
  }

  /** `deserialize(JsonArray)`, appending to a fresh list. */
  method DeserializeArray(a: seq<Json>) returns (list: seq<Value>)
    ensures list == FromArray(a)
    decreases a
  {
    list := [];
    var i := 0;
    while i < |a|
      invariant 0 <= i <= |a|
      invariant list == FromArray(a[..i])
    {
      assert a[..i + 1][..i] == a[..i] && a[..i + 1][i] == a[i];
      match a[i] {
        case JArray(inner) =>
          var nested := DeserializeArray(inner);
          list := list + [List(nested)];
        case JPrim(p) =>
          list := list + [FromPrimitive(p)];
        case _ =>
      }
      i := i + 1;
    }
    assert a[..|a|] == a;
  }

  /** `serialize(object)`: a list becomes an array (an element with no JSON form becomes `null`), strings,
      numbers, characters and booleans become primitives, and anything else has no JSON form. */
  function ToJson(v: Value): Option<Json>
    decreases v
  {
    match v
    case List(items) => Some(JArray(ToJsonArray(items)))
    case Str(s) => Some(JPrim(PString(s)))
    case Integral(i, _) => Some(JPrim(PNumber(IntegerText(i), i)))
    case Decimal(text, whole) => Some(JPrim(PNumber(text, whole)))
    case Character(c) => Some(JPrim(PString([c])))
    case Bool(b) => Some(JPrim(PBool(b)))
    case Section(_) => None
    case Other(_) => None
  }

  function ToJsonArray(items: seq<Value>): (r: seq<Json>)
    ensures |r| == |items|
    decreases items
  {
    if items == [] then []
    else ToJsonArray(items[..|items| - 1]) + [match ToJson(items[|items| - 1]) case Some(j) => j case None => JNull]
  }

  /** `serialize(object)`, with its loop over a list's elements. */
  method Serialize(v: Value) returns (json: Option<Json>)
    ensures json == ToJson(v)
    decreases v
  {
    match v {
      case List(items) =>
        var elements: seq<Json> := [];
        var i := 0;
        while i < |items|
          invariant 0 <= i <= |items|
          invariant elements == ToJsonArray(items[..i])
        {
          assert items[..i + 1][..i] == items[..i] && items[..i + 1][i] == items[i];
          var element := Serialize(items[i]);
          elements := elements + [if element.Some? then element.value else JNull];
          i := i + 1;
        }
        assert items[..|items|] == items;
        return Some(JArray(elements));
      case _ =>
        return ToJson(v);
    }
  }

  /** The JSON handler's `load`. */
  function JsonLoad(root: Json, es: seq<Entry>): Result<seq<Entry>, Failure> {
    Load(root, es, ArrayToList, FromPrimitive)
  }

  /** The JSON handler's `save`: the tree handed to Gson for printing. */
  function JsonSave(es: seq<Entry>): Json {
    JObject(SaveObject(es, ToJson))
  }

  /*
   * Properties
   */

  /** Each primitive keeps its kind: booleans and strings as such, numbers as `BigInteger` exactly when the
      text is an integer, as `BigDecimal` otherwise. */
  lemma PrimitiveKinds(p: Primitive)
    ensures FromPrimitive(p).Bool? <==> p.PBool?
    ensures FromPrimitive(p).Str? <==> p.PString?
    ensures FromPrimitive(p).Integral? <==> p.PNumber? && IsIntegerText(p.text)
    ensures FromPrimitive(p).Decimal? <==> p.PNumber? && !IsIntegerText(p.text)
    ensures p.PNumber? && IsIntegerText(p.text) ==> FromPrimitive(p) == Integral(IntegerValue(p.text), BigIntegerClass)
  {
  }

  /** An array of objects and `null`s only loads as an empty list. */
  lemma {:induction false} FromArrayDropsObjectsAndNulls(a: seq<Json>)
    requires forall i :: 0 <= i < |a| ==> a[i].JNull? || a[i].JObject?
    ensures FromArray(a) == []
    decreases |a|
  {
    if a != [] {
      FromArrayDropsObjectsAndNulls(a[..|a| - 1]);
    }
  }

  /** Exactly configurations and objects of other classes have no JSON form; characters turn into strings. */
  lemma SaveOmits(v: Value)
    ensures ToJson(v).None? <==> v.Section? || v.Other?
    ensures v.Character? ==> ToJson(v) == Some(JPrim(PString([v.c])))
  {
  }

  /** A list element without a JSON form is written as `null`, which loading drops again. */
  lemma ListElementWithoutForm(items: seq<Value>, i: nat)
    requires i < |items| && ToJson(items[i]).None?
    ensures ToJsonArray(items)[i] == JNull
  {
    ToJsonArrayAt(items, i);
  }

  lemma {:induction false} ToJsonArrayAt(items: seq<Value>, i: nat)
    requires i < |items|
    ensures ToJsonArray(items)[i] == match ToJson(items[i]) case Some(j) => j case None => JNull
    decreases |items|
  {
    if i < |items| - 1 {
      assert items[..|items| - 1][i] == items[i];
      ToJsonArrayAt(items[..|items| - 1], i);
    }
  }

  /** The texts `BigDecimal.toString()` prints for a value with a positive scale and no exponent: an optional
      minus sign before a non-zero value, the integer digits without a leading zero, a point and at least one
      fraction digit, and, when the integer part is `0`, an adjusted exponent of at least -6 (a non-zero digit
      among the first six fraction digits, or at most six of them). A decimal read from such a text is written
      with the same text. */
  predicate DecimalText(t: string) {
    var body := if |t| >= 1 && t[0] == '-' then t[1..] else t;
    match IndexOf(body, '.')
    case None => false
    case Some(d) =>
      var whole := body[..d];
      var fraction := body[d + 1..];
      && 1 <= |whole| && AllDigits(whole) && (whole[0] != '0' || |whole| == 1)
      && 1 <= |fraction| && AllDigits(fraction)
      && (whole != "0" || |fraction| <= 6 || fraction[..6] != "000000")
      && (body != t ==> exists i :: 0 <= i < |body| && body[i] != '.' && body[i] != '0')
  }

  /** A decimal text has a point, so `BigInteger` refuses it and it loads as a `BigDecimal` again. */
  lemma DecimalTextNotInteger(t: string)
    requires DecimalText(t)
    ensures !IsIntegerText(t)
  {
    var body := if |t| >= 1 && t[0] == '-' then t[1..] else t;
    var d := IndexOf(body, '.').value;
    if t[0] == '-' || t[0] == '+' {
      assert t[1..][d] == '.';
    } else {
      assert t[d] == '.';
    }
  }

  /** Texts a save reproduces: a positive scale and no exponent. */
  lemma DecimalTextAccepts()
    ensures DecimalText("1.5") && DecimalText("-0.25")
  {
    assert IndexOf("1.5", '.') == Some(1) by { assert "1.5"[1..] == ".5"; }
    assert "-0.25"[1..] == "0.25";
    assert IndexOf("0.25", '.') == Some(1) by { assert "0.25"[1..] == ".25"; }
    assert "0.25"[3] == '5';
  }

  /** `1.5e1` has scale 0: Java writes it as `15`, which loads back as a `BigInteger`, so it is not plain. */
  lemma ScaleZeroDecimalNotPlain()
    ensures !Plain(Decimal("1.5e1", 15))
    ensures FromPrimitive(PNumber("15", 15)) == Integral(15, BigIntegerClass)
  {
    assert IndexOf("1.5e1", '.') == Some(1) by { assert "1.5e1"[1..] == ".5e1"; }
    assert "1.5e1"[2..] == "5e1" && !IsDigit("5e1"[1]);
    assert IsIntegerText("15");
    assert "15"[..1] == "1" && ""[..0] == "" && "1"[..0] == "";
    assert DigitsValue("15") == 15;
  }

  /** `-0.0` is written `0.0`, and `0.0000001` is written `1E-7`: neither is plain. */
  lemma RewrittenDecimalsNotPlain()
    ensures !DecimalText("-0.0") && !DecimalText("0.0000001")
  {
    assert "-0.0"[1..] == "0.0";
    assert IndexOf("0.0", '.') == Some(1);
    assert forall i :: 0 <= i < |"0.0"| ==> "0.0"[i] == '.' || "0.0"[i] == '0';
    assert IndexOf("0.0000001", '.') == Some(1);
    assert "0.0000001"[2..][..6] == "000000";
  }

  /** The values a save and a load give back unchanged: booleans, `BigInteger`s, strings, decimals written as
      `BigDecimal.toString()` prints them, and lists of these. */
  predicate Plain(v: Value)
    decreases v
  {
    match v
    case Bool(_) => true
    case Integral(_, cls) => cls == BigIntegerClass
    case Decimal(text, _) => DecimalText(text)
    case Str(_) => true
    case List(items) => forall i :: 0 <= i < |items| ==> Plain(items[i])
    case _ => false
  }

  lemma {:induction false} PlainListRoundTrip(items: seq<Value>)
    requires forall i :: 0 <= i < |items| ==> Plain(items[i])
    ensures FromArray(ToJsonArray(items)) == items
    decreases items
  {
    if items != [] {
      var init := items[..|items| - 1];
      var last := items[|items| - 1];
      PlainListRoundTrip(init);
      PlainRoundTrip(last);
      var a := ToJsonArray(items);
      assert a[..|a| - 1] == ToJsonArray(init);
      assert items == init + [last];
    }
  }

  /** A plain value is written as an array or a primitive that converts back to the value. */
  lemma {:induction false} PlainRoundTrip(v: Value)
    requires Plain(v)
    ensures ToJson(v).Some?
    ensures ToJson(v).value.JArray? ==> ArrayToList(ToJson(v).value.elements) == v
    ensures ToJson(v).value.JPrim? ==> FromPrimitive(ToJson(v).value.p) == v
    ensures ToJson(v).value.JArray? || ToJson(v).value.JPrim?
    decreases v
  {
    match v
    case List(items) => PlainListRoundTrip(items);
    case Integral(i, _) => IntegerTextRoundTrip(i);
    case Decimal(text, _) => DecimalTextNotInteger(text);
    case _ =>
  }

  /** An `Integer` or a `Long` is written as its decimal text, which loads back as a `BigInteger` of the same value. */
  lemma IntegralLoadsAsBigInteger(i: int, cls: IntegralClass)
    ensures ToJson(Integral(i, cls)).Some? && ToJson(Integral(i, cls)).value.JPrim?
    ensures FromPrimitive(ToJson(Integral(i, cls)).value.p) == Integral(i, BigIntegerClass)
  {
    IntegerTextRoundTrip(i);
  }

  /** Every value that is not a configuration converts to an array or a primitive that converts back. */
  predicate LeavesRoundTrip(es: seq<Entry>, toJson: Value -> Option<Json>, fromArray: seq<Json> -> Value, fromPrimitive: Primitive -> Value)
    decreases es
  {
    forall i :: 0 <= i < |es| ==>
      if es[i].value.Section? then LeavesRoundTrip(es[i].value.entries, toJson, fromArray, fromPrimitive)
      else
        && toJson(es[i].value).Some?
        && match toJson(es[i].value).value
           case JArray(a) => fromArray(a) == es[i].value
           case JPrim(p) => fromPrimitive(p) == es[i].value
           case _ => false
  }

  /** One key without a dot is a one-segment path. */
  lemma KeyPath(k: string)
    requires '.' !in k
    ensures Split(k, '.') == [k] && Segments(k) == Some(([], k))
  {
  }

  lemma LoadSnoc(ms: seq<Member>, m: Member, es: seq<Entry>, fromArray: seq<Json> -> Value, fromPrimitive: Primitive -> Value)
    ensures LoadObject(ms + [m], es, fromArray, fromPrimitive) ==
              match LoadObject(ms, es, fromArray, fromPrimitive)
              case Err(e) => Err(e)
              case Ok(acc) => LoadMember(m, acc, fromArray, fromPrimitive)
  {
    assert (ms + [m])[..|ms|] == ms;
  }

  /** An object member under a new key without a dot appends the configuration its members load into. */
  lemma SectionMemberLoads(acc: seq<Entry>, k: string, children: seq<Member>, c: seq<Entry>, fromArray: seq<Json> -> Value, fromPrimitive: Primitive -> Value)
    requires Lookup(acc, k).None? && '.' !in k
    requires LoadObject(children, [], fromArray, fromPrimitive) == Ok(c)
    ensures LoadMember(Member(k, JObject(children)), acc, fromArray, fromPrimitive) == Ok(acc + [Entry(k, Section(c))])
  {
    SectionCreated(acc, k);
    SectionWrittenBack(acc, k, c);
  }

  /** Asking for a new dot-free key's configuration with `create` appends an empty section and finds it. */
  lemma SectionCreated(acc: seq<Entry>, k: string)
    requires Lookup(acc, k).None? && '.' !in k
    ensures GetConfigurationSpec(acc, k, true) == (Some([]), acc + [Entry(k, Section([]))])
  {
    KeyPath(k);
    PutAbsent(acc, k, Section([]));
    var created := acc + [Entry(k, Section([]))];
    assert CreateAt(acc, [k]) == created by {
      assert CreateAt(ChildOrNew(acc, k), []) == [];
    }
    assert Lookup(created, k) == Some(Section([]));
    assert [k][0] == k && [k][1..] == [];
    assert SectionAt(created, [k]) == Some([]);
  }

  /** Writing the loaded child back replaces the empty section just created. */
  lemma SectionWrittenBack(acc: seq<Entry>, k: string, c: seq<Entry>)
    requires Lookup(acc, k).None? && '.' !in k
    ensures ReplaceAt(acc + [Entry(k, Section([]))], Split(k, '.'), c) == acc + [Entry(k, Section(c))]
  {
    KeyPath(k);
    var created := acc + [Entry(k, Section([]))];
    PutLast(acc, k, Section([]), Section(c));
    assert [k][0] == k && [k][1..] == [];
    assert ReplaceAt(ChildOrNew(created, k), [], c) == c;
  }

  /** An array or primitive member under a new key without a dot appends the value it converts to. */
  lemma LeafMemberLoads(acc: seq<Entry>, k: string, j: Json, v: Value, fromArray: seq<Json> -> Value, fromPrimitive: Primitive -> Value)
    requires Lookup(acc, k).None? && '.' !in k && !v.Section?
    requires (j.JArray? && fromArray(j.elements) == v) || (j.JPrim? && fromPrimitive(j.p) == v)
    ensures LoadMember(Member(k, j), acc, fromArray, fromPrimitive) == Ok(acc + [Entry(k, v)])
  {
    KeyPath(k);
    PutAbsent(acc, k, v);
  }

  lemma WellKeyedInit(es: seq<Entry>)
    requires es != [] && WellKeyed(es)
    ensures WellKeyed(es[..|es| - 1]) && Lookup(es[..|es| - 1], es[|es| - 1].key).None?
  {
    var init := es[..|es| - 1];
    forall i, j | 0 <= i < j < |init| ensures init[i].key != init[j].key {
      assert init[i] == es[i] && init[j] == es[j];
    }
    forall i | 0 <= i < |init| ensures init[i].key != es[|es| - 1].key {
      assert init[i] == es[i];
    }
  }

  /** Loading a saved configuration into an empty one rebuilds it, whenever each leaf's conversions invert
      each other. */
  lemma {:induction false} SaveLoadRoundTrip(es: seq<Entry>, toJson: Value -> Option<Json>, fromArray: seq<Json> -> Value, fromPrimitive: Primitive -> Value)
    requires WellKeyed(es) && LeavesRoundTrip(es, toJson, fromArray, fromPrimitive)
    ensures LoadObject(SaveObject(es, toJson), [], fromArray, fromPrimitive) == Ok(es)
    decreases es
  {
    if es != [] {
      var init := es[..|es| - 1];
      var e := es[|es| - 1];
      assert es == init + [e];
      WellKeyedInit(es);
      SaveLoadRoundTrip(init, toJson, fromArray, fromPrimitive);
      var ms := SaveObject(init, toJson);
      if e.value.Section? {
        var c := e.value.entries;
        SaveLoadRoundTrip(c, toJson, fromArray, fromPrimitive);
        var m := Member(e.key, JObject(SaveObject(c, toJson)));
        assert SaveObject(es, toJson) == ms + [m];
        LoadSnoc(ms, m, [], fromArray, fromPrimitive);
        SectionMemberLoads(init, e.key, SaveObject(c, toJson), c, fromArray, fromPrimitive);
      } else {
        var m := Member(e.key, toJson(e.value).value);
        assert SaveObject(es, toJson) == ms + [m];
        LoadSnoc(ms, m, [], fromArray, fromPrimitive);
        LeafMemberLoads(init, e.key, m.value, e.value, fromArray, fromPrimitive);
      }
    }
  }

  /** A configuration made of plain values. */
  predicate PlainTree(es: seq<Entry>)
    decreases es
  {
    forall i :: 0 <= i < |es| ==>
      if es[i].value.Section? then PlainTree(es[i].value.entries) else Plain(es[i].value)
  }

  lemma {:induction false} PlainTreeLeaves(es: seq<Entry>)
    requires PlainTree(es)
    ensures LeavesRoundTrip(es, ToJson, ArrayToList, FromPrimitive)
    decreases es
  {
    forall i | 0 <= i < |es|
      ensures if es[i].value.Section? then LeavesRoundTrip(es[i].value.entries, ToJson, ArrayToList, FromPrimitive)
              else
                && ToJson(es[i].value).Some?
                && match ToJson(es[i].value).value
                   case JArray(a) => ArrayToList(a) == es[i].value
                   case JPrim(p) => FromPrimitive(p) == es[i].value
                   case _ => false
    {
      if es[i].value.Section? {
        PlainTreeLeaves(es[i].value.entries);
      } else {
        PlainRoundTrip(es[i].value);
      }
    }
  }

  /** Saving a configuration of plain values as JSON and loading the document into an empty configuration
      gives the configuration back. */
  lemma JsonRoundTrip(es: seq<Entry>)
    requires WellKeyed(es) && PlainTree(es)
    ensures JsonLoad(JsonSave(es), []) == Ok(es)
  {
    PlainTreeLeaves(es);
    SaveLoadRoundTrip(es, ToJson, ArrayToList, FromPrimitive);
  }

  /** With conversions that never give a configuration, the walk never throws `IllegalStateException`. */
  lemma {:induction false} LoadNeverIllegalState(ms: seq<Member>, es: seq<Entry>, fromArray: seq<Json> -> Value, fromPrimitive: Primitive -> Value)
    requires forall a :: !fromArray(a).Section?
    requires forall p :: !fromPrimitive(p).Section?
    ensures LoadObject(ms, es, fromArray, fromPrimitive) != Err(IllegalState)
    decreases ms
  {
    if ms != [] {
      LoadNeverIllegalState(ms[..|ms| - 1], es, fromArray, fromPrimitive);
      var m := ms[|ms| - 1];
      match LoadObject(ms[..|ms| - 1], es, fromArray, fromPrimitive)
      case Err(_) =>
      case Ok(acc) =>
        match m.value
        case JObject(children) =>
          var (found, created) := GetConfigurationSpec(acc, m.key, true);
          GetConfigurationNeverNull(acc, m.key);
          LoadNeverIllegalState(children, found.value, fromArray, fromPrimitive);
        case _ =>
    }
  }

  /** So the `IllegalStateException` of a load is exactly the one for a root that is not an object. */
  lemma RootMustBeObject(root: Json, es: seq<Entry>, fromArray: seq<Json> -> Value, fromPrimitive: Primitive -> Value)
    requires forall a :: !fromArray(a).Section?
    requires forall p :: !fromPrimitive(p).Section?
    ensures Load(root, es, fromArray, fromPrimitive) == Err(IllegalState) <==> !root.JObject?
  {
    if root.JObject? {
      LoadNeverIllegalState(root.members, es, fromArray, fromPrimitive);
    }
  }

  /** The JSON handler rejects exactly the roots that are not objects. */
  lemma JsonRootMustBeObject(root: Json, es: seq<Entry>)
    ensures JsonLoad(root, es) == Err(IllegalState) <==> !root.JObject?
  {
    forall p ensures !FromPrimitive(p).Section? {
    }
    RootMustBeObject(root, es, ArrayToList, FromPrimitive);
  }

  /** A dotted member key is a path: `{"a.b": true}` loads as `a` holding `b`. */
  lemma DottedKeyNests()
    ensures JsonLoad(JObject([Member("a.b", JPrim(PBool(true)))]), []) == Ok([Entry("a", Section([Entry("b", Bool(true))]))])
  {
    var p := "a.b";
    assert p[1] == '.';
    assert IndexOf(p, '.') == Some(1);
    assert p[..1] == "a" && p[2..] == "b" && IndexOf("b", '.') == None;
    assert Pieces("b", '.') == ["b"];
    assert Pieces(p, '.') == ["a", "b"];
    assert Split(p, '.') == ["a", "b"];
    assert Segments(p) == Some((["a"], "b"));
    var ms := [Member("a.b", JPrim(PBool(true)))];
    assert ms[..0] == [];
  }
}
