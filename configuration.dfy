/**
 * `Configuration`: an insertion-ordered map from keys to values, where a value may itself be a
 * configuration. Paths are dotted: `a.b.c` names key `c` inside the configurations at `a` and `a.b`;
 * writing creates missing configurations on the way and replaces any other value sitting there, while
 * reading and removing never create anything.
 *
 * A configuration's contents are a sequence of entries in insertion order (the linked hash map); nested
 * configurations are `Section` values, so the tree is a value and the class holds its root.
 */
module Config {

  import opened Outcomes
  import opened Text

  /** The boxed class of an integral number. The model does not track the class's range: an `Integer` value
      is not checked to fit in 32 bits. */
  datatype IntegralClass = BigIntegerClass | IntegerClass | LongClass

  /** The values a configuration holds. `Integral` is an integral `Number` of class `cls` (`BigInteger`,
      `Integer` or `Long`); `Decimal` is a `BigDecimal` given by its text and its integer part; `Other` is an object
      of any other class. The integer part `whole` of a `Decimal` is not derived from `text`: it is taken as the
      parser supplies it (`BigDecimal.toBigInteger()`) and trusted to be that. `Other` never stands for a `Number`:
      a `Short`, `Byte`, `Float` or `Double` is not modelled. */
  datatype Value =
    | Section(entries: seq<Entry>)
    | Bool(b: bool)
    | Integral(i: int, cls: IntegralClass)
    | Decimal(text: string, whole: int)
    | Str(s: string)
    | Character(c: char)
    | List(items: seq<Value>)
    | Other(className: string)

  datatype Entry = Entry(key: string, value: Value)

  /** What a path operation can throw: storing a configuration, or a path made of dots only. */
  datatype Failure = IllegalState | IndexOutOfBounds

  /*
   * The linked map
   */

  /** `map.get(k)`. */
  function Lookup(es: seq<Entry>, k: string): (r: Option<Value>)
    ensures r.None? <==> forall i :: 0 <= i < |es| ==> es[i].key != k
  {
    if es == [] then None
    else if es[0].key == k then Some(es[0].value)
    else
      var r := Lookup(es[1..], k);
      assert forall i :: 1 <= i < |es| ==> es[i] == es[1..][i - 1];
      r
  }

  /** A found value sits at an entry with that key. */
  lemma {:induction false} LookupIndex(es: seq<Entry>, k: string) returns (i: nat)
    requires Lookup(es, k).Some?
    ensures i < |es| && es[i].key == k && es[i].value == Lookup(es, k).value
  {
    if es[0].key == k {
      i := 0;
    } else {
      var j := LookupIndex(es[1..], k);
      i := j + 1;
    }
  }

  /** `keySet()`, in insertion order. */
  function Keys(es: seq<Entry>): (r: seq<string>)
    ensures |r| == |es| && forall i :: 0 <= i < |es| ==> r[i] == es[i].key
  {
    if es == [] then [] else [es[0].key] + Keys(es[1..])
  }

  predicate UniqueKeys(es: seq<Entry>) {
    forall i, j :: 0 <= i < j < |es| ==> es[i].key != es[j].key
  }

  /** `map.put(k, v)`: an existing key keeps its position, a new key goes last. */
  function Put(es: seq<Entry>, k: string, v: Value): (r: seq<Entry>)
    ensures Lookup(r, k) == Some(v)
  {
    if es == [] then [Entry(k, v)]
    else if es[0].key == k then [Entry(k, v)] + es[1..]
    else [es[0]] + Put(es[1..], k, v)
  }

  /** `put` leaves the value of every other key as it was. */
  lemma {:induction false} PutOthers(es: seq<Entry>, k: string, v: Value, j: string)
    requires j != k
    ensures Lookup(Put(es, k, v), j) == Lookup(es, j)
  {
    if es == [] {
    } else if es[0].key == k {
      assert ([Entry(k, v)] + es[1..])[1..] == es[1..];
    } else {
      PutOthers(es[1..], k, v, j);
      assert ([es[0]] + Put(es[1..], k, v))[1..] == Put(es[1..], k, v);
    }
  }

  /** `put` keeps the insertion order: an existing key stays where it was, a new one is appended. */
  lemma PutKeys(es: seq<Entry>, k: string, v: Value)
    ensures Lookup(es, k).Some? ==> Keys(Put(es, k, v)) == Keys(es)
    ensures Lookup(es, k).None? ==> Keys(Put(es, k, v)) == Keys(es) + [k]
  {
    if Lookup(es, k).Some? {
      PutInPlace(es, k, v);
    } else {
      PutAbsent(es, k, v);
      KeysSnoc(es, Entry(k, v));
    }
  }

  /** `put` of a present key changes no entry's key. */
  lemma {:induction false} PutInPlace(es: seq<Entry>, k: string, v: Value)
    requires Lookup(es, k).Some?
    ensures |Put(es, k, v)| == |es|
    ensures forall i :: 0 <= i < |es| ==> Put(es, k, v)[i].key == es[i].key
  {
    if es[0].key != k {
      PutInPlace(es[1..], k, v);
      var r := Put(es, k, v);
      assert r == [es[0]] + Put(es[1..], k, v);
      forall i | 1 <= i < |es|
        ensures r[i].key == es[i].key
      {
        assert r[i] == Put(es[1..], k, v)[i - 1] && es[i] == es[1..][i - 1];
      }
    }
  }

  lemma KeysSnoc(es: seq<Entry>, e: Entry)
    ensures Keys(es + [e]) == Keys(es) + [e.key]
  {
    assert forall i :: 0 <= i < |es| ==> (es + [e])[i] == es[i];
  }

  /** `put` of a key not yet present appends the entry. */
  lemma {:induction false} PutAbsent(es: seq<Entry>, k: string, v: Value)
    requires Lookup(es, k).None?
    ensures Put(es, k, v) == es + [Entry(k, v)]
  {
    if es != [] {
      PutAbsent(es[1..], k, v);
      assert [es[0]] + (es[1..] + [Entry(k, v)]) == es + [Entry(k, v)];
    }
  }

  /** `put` of the key added last replaces its value in place. */
  lemma {:induction false} PutLast(es: seq<Entry>, k: string, v: Value, w: Value)
    requires Lookup(es, k).None?
    ensures Put(es + [Entry(k, v)], k, w) == es + [Entry(k, w)]
  {
    if es != [] {
      var tail := es[1..] + [Entry(k, v)];
      var full := es + [Entry(k, v)];
      assert full[0] == es[0] && full[1..] == tail;
      assert es[0].key != k;
      PutLast(es[1..], k, v, w);
      assert Put(full, k, w) == [es[0]] + (es[1..] + [Entry(k, w)]);
      assert [es[0]] + (es[1..] + [Entry(k, w)]) == es + [Entry(k, w)];
    }
  }

  /** `map.remove(k)`. */
  function Delete(es: seq<Entry>, k: string): (r: seq<Entry>)
    ensures Lookup(r, k).None?
    ensures forall j :: j != k ==> Lookup(r, j) == Lookup(es, j)
    ensures Lookup(es, k).None? ==> r == es
  {
    if es == [] then []
    else if es[0].key == k then Delete(es[1..], k)
    else [es[0]] + Delete(es[1..], k)
  }

  /** A map's keys are distinct, which `put` keeps. */
  lemma {:induction false} PutKeepsKeysUnique(es: seq<Entry>, k: string, v: Value)
    requires UniqueKeys(es)
    ensures UniqueKeys(Put(es, k, v))
  {
    var r := Put(es, k, v);
    var ks := Keys(r);
    PutKeys(es, k, v);
    if Lookup(es, k).None? {
      assert ks == Keys(es) + [k];
    } else {
      assert ks == Keys(es);
    }
    forall i, j | 0 <= i < j < |r| ensures r[i].key != r[j].key {
      assert ks[i] == r[i].key && ks[j] == r[j].key;
    }
  }

  /*
   * Paths
   */

  /** The configuration reached from `es` along `path`, if every segment is a configuration. */
  function SectionAt(es: seq<Entry>, path: seq<string>): Option<seq<Entry>>
    decreases |path|
  {
    if path == [] then Some(es)
    else match Lookup(es, path[0])
      case Some(Section(child)) => SectionAt(child, path[1..])
      case _ => None
  }

  /** The configuration at `path[0]`, or a fresh one when there is none or something else sits there. */
  function ChildOrNew(es: seq<Entry>, part: string): seq<Entry> {
    match Lookup(es, part)
    case Some(Section(child)) => child
    case _ => []
  }

  /** `findConfiguration(path, …, true)` followed by `put(k, v)` in the configuration found. */
  function PutAt(es: seq<Entry>, path: seq<string>, k: string, v: Value): seq<Entry>
    decreases |path|
  {
    if path == [] then Put(es, k, v)
    else Put(es, path[0], Section(PutAt(ChildOrNew(es, path[0]), path[1..], k, v)))
  }

  /** `findConfiguration(path, …, true)` on its own: every configuration along `path` exists afterwards. */
  function CreateAt(es: seq<Entry>, path: seq<string>): seq<Entry>
    decreases |path|
  {
    if path == [] then es
    else Put(es, path[0], Section(CreateAt(ChildOrNew(es, path[0]), path[1..])))
  }

  /** The configuration at `path` replaced by `child`: how changes made through a sub-configuration object
      that `getConfiguration(path, true)` returned show up in the root, since that object is shared. */
  function ReplaceAt(es: seq<Entry>, path: seq<string>, child: seq<Entry>): seq<Entry>
    decreases |path|
  {
    if path == [] then child
    else Put(es, path[0], Section(ReplaceAt(ChildOrNew(es, path[0]), path[1..], child)))
  }

  /** `findConfiguration(path, …, false)` followed by `remove(k)` in the configuration found, if any. */
  function RemoveAt(es: seq<Entry>, path: seq<string>, k: string): seq<Entry>
    decreases |path|
  {
    if path == [] then Delete(es, k)
    else match Lookup(es, path[0])
      case Some(Section(child)) => Put(es, path[0], Section(RemoveAt(child, path[1..], k)))
      case _ => es
  }

  /** The value at `path + [k]`. */
  function GetAt(es: seq<Entry>, path: seq<string>, k: string): Option<Value> {
    match SectionAt(es, path)
    case Some(c) => Lookup(c, k)
    case None => None
  }

  /** How a path string is taken apart: without a dot it is one key; otherwise it is split at dots (trailing
      empty segments dropped) into the configurations to walk and the last key. A path of dots only splits
      into nothing, and the last-key access throws. */
  function Segments(pathUri: string): Option<(seq<string>, string)>
  {
    if '.' !in pathUri then Some(([], pathUri))
    else
      var path := Split(pathUri, '.');
      if path == [] then None else Some((path[..|path| - 1], path[|path| - 1]))
  }

  /*
   * The operations, as functions of the root entries
   */

  /** `set(pathUri, object)`; `None` is Java `null`, which removes. */
  function SetSpec(es: seq<Entry>, pathUri: string, newValue: Option<Value>): Result<seq<Entry>, Failure>
  {
    if newValue.None? then RemoveSpec(es, pathUri)
    else if newValue.value.Section? then Err(IllegalState)
    else match Segments(pathUri)
      case None => Err(IndexOutOfBounds)
      case Some((path, k)) => Ok(PutAt(es, path, k, newValue.value))
  }

  /** `remove(pathUri)`. */
  function RemoveSpec(es: seq<Entry>, pathUri: string): Result<seq<Entry>, Failure>
  {
    match Segments(pathUri)
    case None => Err(IndexOutOfBounds)
    case Some((path, k)) => Ok(RemoveAt(es, path, k))
  }

  /** `get(pathUri)`; `None` is `null`. */
  function GetSpec(es: seq<Entry>, pathUri: string): Result<Option<Value>, Failure>
  {
    match Segments(pathUri)
    case None => Err(IndexOutOfBounds)
    case Some((path, k)) => Ok(GetAt(es, path, k))
  }

  /** `contains(pathUri)`. */
  function ContainsSpec(es: seq<Entry>, pathUri: string): (r: Result<bool, Failure>)
    ensures r.Ok? <==> GetSpec(es, pathUri).Ok?
    ensures r.Ok? ==> (r.value <==> GetSpec(es, pathUri).value.Some?)
  {
    match Segments(pathUri)
    case None => Err(IndexOutOfBounds)
    case Some((path, k)) =>
      match SectionAt(es, path)
      case None => Ok(false)
      case Some(c) => Ok(Lookup(c, k).Some?)
  }

  /** The classes a typed lookup can ask for. */
  datatype JavaType =
    | ObjectType | BooleanType | NumberType | BigIntegerType | IntegerType | LongType | BigDecimalType
    | StringType | CharacterType | ListType | ConfigurationType | ClassType(name: string)

  /** `type.isAssignableFrom(object.getClass())` for the classes the model enumerates. A `ClassType` is an exact
      class test: supertypes such as `CharSequence` or `Collection` are not modelled, so they match no value. */
  predicate InstanceOf(v: Value, t: JavaType) {
    match t
    case ObjectType => true
    case BooleanType => v.Bool?
    case NumberType => v.Integral? || v.Decimal?
    case BigIntegerType => v.Integral? && v.cls == BigIntegerClass
    case IntegerType => v.Integral? && v.cls == IntegerClass
    case LongType => v.Integral? && v.cls == LongClass
    case BigDecimalType => v.Decimal?
    case StringType => v.Str?
    case CharacterType => v.Character?
    case ListType => v.List?
    case ConfigurationType => v.Section?
    case ClassType(name) => v == Other(name)
  }

  /** `contains(pathUri, type)` as written: for a dotted path it checks that the parent configuration exists,
      then looks the last segment up in the root configuration instead of the parent. */
  function ContainsTypedAsWritten(es: seq<Entry>, pathUri: string, t: JavaType): Result<bool, Failure>
  {
    match Segments(pathUri)
    case None => Err(IndexOutOfBounds)
    case Some((path, k)) =>
      if SectionAt(es, path).None? then Ok(false)
      else
        var found := Lookup(es, k);
        Ok(found.Some? && InstanceOf(found.value, t))
  }

  /** `contains(pathUri, type)` as evidently intended: the value at the path exists and has the type. */
  function ContainsTyped(es: seq<Entry>, pathUri: string, t: JavaType): (r: Result<bool, Failure>)
    ensures r.Ok? <==> GetSpec(es, pathUri).Ok?
    ensures r.Ok? ==> (r.value <==> GetSpec(es, pathUri).value.Some? && InstanceOf(GetSpec(es, pathUri).value.value, t))
  {
    match Segments(pathUri)
    case None => Err(IndexOutOfBounds)
    case Some((path, k)) =>
      match SectionAt(es, path)
      case None => Ok(false)
      case Some(c) =>
        var found := Lookup(c, k);
        Ok(found.Some? && InstanceOf(found.value, t))
  }

  /** `get(pathUri, type)`: `null` unless the value exists and has the type. */
  function GetTyped(es: seq<Entry>, pathUri: string, t: JavaType): (r: Result<Option<Value>, Failure>)
    ensures r.Ok? <==> GetSpec(es, pathUri).Ok?
    ensures r.Ok? && r.value.Some? ==> InstanceOf(r.value.value, t) && GetSpec(es, pathUri).value == r.value
    ensures r.Ok? && r.value.None? ==> GetSpec(es, pathUri).value.None? || !InstanceOf(GetSpec(es, pathUri).value.value, t)
  {
    match GetSpec(es, pathUri)
    case Err(e) => Err(e)
    case Ok(found) => if found.None? || !InstanceOf(found.value, t) then Ok(None) else Ok(found)
  }

  /** `get(pathUri, type, fallback)`: the fallback when the value is absent or of another type. */
  function GetTypedOr(es: seq<Entry>, pathUri: string, t: JavaType, fallback: Value): (r: Result<Value, Failure>)
    ensures r.Ok? <==> GetSpec(es, pathUri).Ok?
    ensures r.Ok? ==> r.value == (if GetTyped(es, pathUri, t).value.Some? then GetTyped(es, pathUri, t).value.value else fallback)
  {
    match GetTyped(es, pathUri, t)
    case Err(e) => Err(e)
    case Ok(None) => Ok(fallback)
    case Ok(Some(v)) => Ok(v)
  }

  /** `getBoolean(pathUri, fallback)`. */
  function GetBoolean(es: seq<Entry>, pathUri: string, fallback: bool): (r: Result<bool, Failure>)
    ensures r.Ok? <==> GetSpec(es, pathUri).Ok?
    ensures r.Ok? && GetSpec(es, pathUri).value == Some(Bool(true)) ==> r.value
    ensures r.Ok? && GetSpec(es, pathUri).value == Some(Bool(false)) ==> !r.value
    ensures r.Ok? && !(GetSpec(es, pathUri).value.Some? && GetSpec(es, pathUri).value.value.Bool?) ==> r.value == fallback
  {
    match GetSpec(es, pathUri)
    case Err(e) => Err(e)
    case Ok(Some(Bool(b))) => Ok(b)
    case Ok(_) => Ok(fallback)
  }

  /** `Number.intValue()`: the low 32 bits, read as two's complement. */
  function IntValue(i: int): (r: int)
    ensures -0x8000_0000 <= r < 0x8000_0000
    ensures (r - i) % 0x1_0000_0000 == 0
    ensures -0x8000_0000 <= i < 0x8000_0000 ==> r == i
  {
    (i + 0x8000_0000) % 0x1_0000_0000 - 0x8000_0000
  }

  /** `getInt(pathUri, fallback)`: a number's `intValue()`, the fallback for anything else. */
  function GetInt(es: seq<Entry>, pathUri: string, fallback: int): (r: Result<int, Failure>)
    ensures r.Ok? <==> GetSpec(es, pathUri).Ok?
    ensures r.Ok? && GetSpec(es, pathUri).value.Some? && GetSpec(es, pathUri).value.value.Integral? ==>
              r.value == IntValue(GetSpec(es, pathUri).value.value.i)
    ensures r.Ok? && GetSpec(es, pathUri).value.Some? && GetSpec(es, pathUri).value.value.Decimal? ==>
              r.value == IntValue(GetSpec(es, pathUri).value.value.whole)
    ensures r.Ok? && !(GetSpec(es, pathUri).value.Some? && InstanceOf(GetSpec(es, pathUri).value.value, NumberType)) ==>
              r.value == fallback
  {
    match GetSpec(es, pathUri)
    case Err(e) => Err(e)
    case Ok(Some(Integral(i, _))) => Ok(IntValue(i))
    case Ok(Some(Decimal(_, whole))) => Ok(IntValue(whole))
    case Ok(_) => Ok(fallback)
  }

  /** `getConfiguration(pathUri, create)`: the whole path is split (a path of dots only is no path at all)
      and walked, creating configurations when asked. Returns the configuration found and the new root. */
  function GetConfigurationSpec(es: seq<Entry>, pathUri: string, create: bool): (Option<seq<Entry>>, seq<Entry>)
  {
    var path := Split(pathUri, '.');
    if create then (SectionAt(CreateAt(es, path), path), CreateAt(es, path)) else (SectionAt(es, path), es)
  }

  /** `isConfiguration(pathUri)` as written: `contains(pathUri, Configuration.class)`, so for a dotted path
      it inherits the root lookup of `ContainsTypedAsWritten`. On a path without a dot it is exact. */
  function IsConfiguration(es: seq<Entry>, pathUri: string): (r: Result<bool, Failure>)
    ensures r.Ok? <==> GetSpec(es, pathUri).Ok?
    ensures '.' !in pathUri ==> r == IsConfigurationRepaired(es, pathUri)
  {
    ContainsTypedAsWritten(es, pathUri, ConfigurationType)
  }

  /** `isConfiguration(pathUri)` over the corrected typed `contains`. */
  function IsConfigurationRepaired(es: seq<Entry>, pathUri: string): (r: Result<bool, Failure>)
    ensures r.Ok? <==> GetSpec(es, pathUri).Ok?
    ensures r.Ok? ==> (r.value <==> GetSpec(es, pathUri).value.Some? && GetSpec(es, pathUri).value.value.Section?)
  {
    ContainsTyped(es, pathUri, ConfigurationType)
  }

  /*
   * The class
   */

  class Configuration {

    /** The root map. */
    var entries: seq<Entry>

    /** Keys are distinct and dot-free at every level. */
    predicate Valid()
      reads this
    {
      WellKeyed(entries)
    }

    constructor ()
      ensures entries == [] && Valid()
    {
      entries := [];
    }

    function KeySet(): seq<string>
      reads this
    {
      Keys(entries)
    }

    method Set(pathUri: string, newValue: Option<Value>) returns (failure: Option<Failure>)
      modifies this
      ensures SetSpec(old(entries), pathUri, newValue).Ok? ==> failure.None? && entries == SetSpec(old(entries), pathUri, newValue).value
      ensures SetSpec(old(entries), pathUri, newValue).Err? ==> failure == Some(SetSpec(old(entries), pathUri, newValue).error) && entries == old(entries)
      ensures old(Valid()) ==> Valid()
    {
      if Valid() && SetSpec(entries, pathUri, newValue).Ok? {
        SetKeepsWellKeyed(entries, pathUri, newValue);
      }
      if newValue.None? {
        failure := Remove(pathUri);
        return;
      }
      if newValue.value.Section? {
        return Some(IllegalState);
      }
      if '.' !in pathUri {
        entries := Put(entries, pathUri, newValue.value);
        return None;
      }
      var path := Split(pathUri, '.');
      if |path| == 0 {
        return Some(IndexOutOfBounds);
      }
      entries := PutAt(entries, path[..|path| - 1], path[|path| - 1], newValue.value);
      return None;
    }

    method Remove(pathUri: string) returns (failure: Option<Failure>)
      modifies this
      ensures RemoveSpec(old(entries), pathUri).Ok? ==> failure.None? && entries == RemoveSpec(old(entries), pathUri).value
      ensures RemoveSpec(old(entries), pathUri).Err? ==> failure == Some(IndexOutOfBounds) && entries == old(entries)
      ensures old(Valid()) ==> Valid()
    {
      if Valid() && RemoveSpec(entries, pathUri).Ok? {
        RemoveKeepsWellKeyed(entries, pathUri);
      }
      if '.' !in pathUri {
        entries := Delete(entries, pathUri);
        return None;
      }
      var path := Split(pathUri, '.');
      if |path| == 0 {
        return Some(IndexOutOfBounds);
      }
      var config := FindConfiguration(path, |path| - 1);
      if config.None? {
        RemoveMissingParent(entries, path[..|path| - 1], path[|path| - 1]);
        return None;
      }
      entries := RemoveAt(entries, path[..|path| - 1], path[|path| - 1]);
      return None;
    }

    method Clear()
      modifies this
      ensures entries == [] && Valid()
    {
      entries := [];
    }

    /** The non-creating walk of `findConfiguration(path, length, false)`; `length` is capped at the path's length. */
    method FindConfiguration(path: seq<string>, length: int) returns (found: Option<seq<Entry>>)
      ensures length <= 0 ==> found == Some(entries)
      ensures 0 < length ==> found == SectionAt(entries, path[..if length < |path| then length else |path|])
    {
      var n := if length < |path| then length else |path|;
      var current := entries;
      var index := 0;
      while index < n
        invariant 0 <= n ==> index <= n
        invariant 0 < n ==> SectionAt(entries, path[..n]) == SectionAt(current, path[index..n])
        invariant n <= 0 ==> current == entries
        decreases n - index
      {
        var part := path[index];
        assert path[index..n][0] == part && path[index..n][1..] == path[index + 1..n];
        match Lookup(current, part) {
          case Some(Section(config)) =>
            current := config;
          case _ =>
            return None;
        }
        index := index + 1;
      }
      return Some(current);
    }

    method Contains(pathUri: string) returns (r: Result<bool, Failure>)
      ensures r == ContainsSpec(entries, pathUri)
    {
      if '.' !in pathUri {
        return Ok(Lookup(entries, pathUri).Some?);
      }
      var path := Split(pathUri, '.');
      if |path| == 0 {
        return Err(IndexOutOfBounds);
      }
      var config := FindConfiguration(path, |path| - 1);
      return Ok(config.Some? && Lookup(config.value, path[|path| - 1]).Some?);
    }

    /** `contains(pathUri, type)`, as written. */
    method ContainsOfType(pathUri: string, t: JavaType) returns (r: Result<bool, Failure>)
      ensures r == ContainsTypedAsWritten(entries, pathUri, t)
    {
      if '.' !in pathUri {
        var found := Lookup(entries, pathUri);
        return Ok(found.Some? && InstanceOf(found.value, t));
      }
      var path := Split(pathUri, '.');
      if |path| == 0 {
        return Err(IndexOutOfBounds);
      }
      var config := FindConfiguration(path, |path| - 1);
      if config.None? {
        return Ok(false);
      }
      var found := Lookup(entries, path[|path| - 1]);
      return Ok(found.Some? && InstanceOf(found.value, t));
    }

    method Get(pathUri: string) returns (r: Result<Option<Value>, Failure>)
      ensures r == GetSpec(entries, pathUri)
    {
      if '.' !in pathUri {
        return Ok(Lookup(entries, pathUri));
      }
      var path := Split(pathUri, '.');
      if |path| == 0 {
        return Err(IndexOutOfBounds);
      }
      var config := FindConfiguration(path, |path| - 1);
      if config.None? {
        return Ok(None);
      }
      return Ok(Lookup(config.value, path[|path| - 1]));
    }

    method GetConfiguration(pathUri: string, create: bool) returns (config: Option<seq<Entry>>)
      modifies this
      ensures (config, entries) == GetConfigurationSpec(old(entries), pathUri, create)
      ensures old(Valid()) ==> Valid()
    {
      var path := Split(pathUri, '.');
      if create {
        if Valid() {
          SplitPiecesFree(pathUri, '.');
          WellKeyedCreateAt(entries, path);
        }
        entries := CreateAt(entries, path);
      }
      config := FindConfiguration(path, |path|);
      if |path| == 0 {
        assert path == path[..0];
      } else {
        assert path == path[..|path|];
      }
    }
  }

  /*
   * Properties
   */

  /** Walking a path through a configuration that `put` rewrote. */
  lemma {:induction false} GetAtPutAt(es: seq<Entry>, path: seq<string>, k: string, v: Value)
    ensures GetAt(PutAt(es, path, k, v), path, k) == Some(v)
    decreases |path|
  {
    if path != [] {
      var child := PutAt(ChildOrNew(es, path[0]), path[1..], k, v);
      GetAtPutAt(ChildOrNew(es, path[0]), path[1..], k, v);
      assert SectionAt(PutAt(es, path, k, v), path) == SectionAt(child, path[1..]);
    }
  }

  /** After `set(p, v)` with a value that is neither `null` nor a configuration, `get(p)` returns `v`. */
  lemma GetAfterSet(es: seq<Entry>, pathUri: string, v: Value)
    requires SetSpec(es, pathUri, Some(v)).Ok?
    ensures GetSpec(SetSpec(es, pathUri, Some(v)).value, pathUri) == Ok(Some(v))
  {
    var (path, k) := Segments(pathUri).value;
    GetAtPutAt(es, path, k, v);
  }

  /** A `set` to a non-configuration value fails only for a configuration value or a path of dots. */
  lemma SetFailures(es: seq<Entry>, pathUri: string, v: Value)
    ensures SetSpec(es, pathUri, Some(v)) == Err(IllegalState) <==> v.Section?
    ensures SetSpec(es, pathUri, Some(v)) == Err(IndexOutOfBounds) <==> !v.Section? && Segments(pathUri).None?
  {
  }

  /** The full path of a value: the configurations walked, then its key. */
  function Resolve(es: seq<Entry>, full: seq<string>): Option<Value>
    requires full != []
    decreases |full|
  {
    if |full| == 1 then Lookup(es, full[0])
    else match Lookup(es, full[0])
      case Some(Section(child)) => Resolve(child, full[1..])
      case _ => None
  }

  lemma {:induction false} GetAtIsResolve(es: seq<Entry>, path: seq<string>, k: string)
    ensures GetAt(es, path, k) == Resolve(es, path + [k])
    decreases |path|
  {
    if path != [] {
      assert (path + [k])[0] == path[0] && (path + [k])[1..] == path[1..] + [k];
      match Lookup(es, path[0])
      case Some(Section(child)) => GetAtIsResolve(child, path[1..], k);
      case _ =>
    }
  }

  /** Two paths diverge when they differ at some position both have. */
  predicate Diverge(p: seq<string>, q: seq<string>) {
    exists i :: 0 <= i < |p| && i < |q| && p[i] != q[i]
  }

  /** `put` under one path leaves every diverging path as it was. */
  lemma {:induction false} PutAtLeavesOthers(es: seq<Entry>, path: seq<string>, k: string, v: Value, q: seq<string>)
    requires q != [] && Diverge(path + [k], q)
    ensures Resolve(PutAt(es, path, k, v), q) == Resolve(es, q)
    decreases |path|
  {
    var full := path + [k];
    var i :| 0 <= i < |full| && i < |q| && full[i] != q[i];
    if path == [] {
      assert full[0] == k;
      PutOthers(es, k, v, q[0]);
    } else if q[0] != path[0] {
      PutOthers(es, path[0], Section(PutAt(ChildOrNew(es, path[0]), path[1..], k, v)), q[0]);
    } else {
      assert full[0] == path[0] && i > 0;
      assert full[1..] == path[1..] + [k];
      assert full[1..][i - 1] != q[1..][i - 1];
      var child := ChildOrNew(es, path[0]);
      PutAtLeavesOthers(child, path[1..], k, v, q[1..]);
      ResolveThroughPut(es, PutAt(child, path[1..], k, v), q);
      ResolveThroughChild(es, q);
    }
  }

  /** A path of length two or more through a section just put resolves inside that section. */
  lemma ResolveThroughPut(es: seq<Entry>, sub: seq<Entry>, q: seq<string>)
    requires |q| > 1
    ensures Resolve(Put(es, q[0], Section(sub)), q) == Resolve(sub, q[1..])
  {
  }

  /** A path of length two or more resolves inside the section its first part names, or not at all. */
  lemma ResolveThroughChild(es: seq<Entry>, q: seq<string>)
    requires |q| > 1
    ensures Resolve(es, q) == Resolve(ChildOrNew(es, q[0]), q[1..])
  {
    match Lookup(es, q[0])
    case Some(Section(c)) =>
    case _ =>
      assert Resolve([], q[1..]) == None;
  }

  /** `set(p, v)` changes nothing at paths that diverge from `p`. */
  lemma SetLeavesOthers(es: seq<Entry>, pathUri: string, v: Value, other: string)
    requires SetSpec(es, pathUri, Some(v)).Ok? && Segments(other).Some?
    requires var (p, k) := Segments(pathUri).value; var (q, j) := Segments(other).value; Diverge(p + [k], q + [j])
    ensures GetSpec(SetSpec(es, pathUri, Some(v)).value, other) == GetSpec(es, other)
  {
    var (p, k) := Segments(pathUri).value;
    var (q, j) := Segments(other).value;
    PutAtLeavesOthers(es, p, k, v, q + [j]);
    GetAtIsResolve(es, q, j);
    GetAtIsResolve(PutAt(es, p, k, v), q, j);
  }

  lemma {:induction false} RemoveAtGetAt(es: seq<Entry>, path: seq<string>, k: string)
    ensures GetAt(RemoveAt(es, path, k), path, k).None?
    decreases |path|
  {
    if path != [] {
      match Lookup(es, path[0])
      case Some(Section(child)) =>
        RemoveAtGetAt(child, path[1..], k);
      case _ =>
    }
  }

  /** After `remove(p)`, `get(p)` is `null`. */
  lemma GetAfterRemove(es: seq<Entry>, pathUri: string)
    requires RemoveSpec(es, pathUri).Ok?
    ensures GetSpec(RemoveSpec(es, pathUri).value, pathUri) == Ok(None)
  {
    var (path, k) := Segments(pathUri).value;
    RemoveAtGetAt(es, path, k);
  }

  lemma PutSame(es: seq<Entry>, k: string, v: Value)
    requires Lookup(es, k) == Some(v)
    ensures Put(es, k, v) == es
  {
    if es != [] && es[0].key != k {
      PutSame(es[1..], k, v);
    }
  }

  /** Removing what is not there creates and changes nothing, however much of the path is missing. */
  lemma {:induction false} RemoveMissing(es: seq<Entry>, path: seq<string>, k: string)
    requires GetAt(es, path, k).None?
    ensures RemoveAt(es, path, k) == es
    decreases |path|
  {
    if path != [] {
      match Lookup(es, path[0])
      case Some(Section(child)) =>
        RemoveMissing(child, path[1..], k);
        PutSame(es, path[0], Section(child));
      case _ =>
    }
  }

  lemma RemoveMissingParent(es: seq<Entry>, path: seq<string>, k: string)
    requires SectionAt(es, path).None?
    ensures RemoveAt(es, path, k) == es
  {
    RemoveMissing(es, path, k);
  }

  /** `getConfiguration(p, true)` never returns `null`. */
  lemma {:induction false} CreateAtFinds(es: seq<Entry>, path: seq<string>)
    ensures SectionAt(CreateAt(es, path), path).Some?
    decreases |path|
  {
    if path != [] {
      CreateAtFinds(ChildOrNew(es, path[0]), path[1..]);
    }
  }

  lemma GetConfigurationNeverNull(es: seq<Entry>, pathUri: string)
    ensures GetConfigurationSpec(es, pathUri, true).0.Some?
  {
    CreateAtFinds(es, Split(pathUri, '.'));
  }

  /** `getConfiguration(p, true)` on an existing configuration path changes nothing. */
  lemma {:induction false} CreateAtExisting(es: seq<Entry>, path: seq<string>)
    requires SectionAt(es, path).Some?
    ensures CreateAt(es, path) == es
    decreases |path|
  {
    if path != [] {
      var child := ChildOrNew(es, path[0]);
      CreateAtExisting(child, path[1..]);
      PutSame(es, path[0], Section(child));
    }
  }

  /** Distinct keys without a dot at every level: the trees `set` builds and `set` and `remove` keep. */
  predicate WellKeyed(es: seq<Entry>)
    decreases es
  {
    && UniqueKeys(es)
    && forall i :: 0 <= i < |es| ==> '.' !in es[i].key && (es[i].value.Section? ==> WellKeyed(es[i].value.entries))
  }

  lemma WellKeyedTail(es: seq<Entry>)
    requires es != [] && WellKeyed(es)
    ensures WellKeyed(es[1..])
  {
    var tail := es[1..];
    forall i | 0 <= i < |tail| ensures tail[i] == es[i + 1] { }
  }

  lemma WellKeyedLookup(es: seq<Entry>, k: string)
    requires WellKeyed(es) && Lookup(es, k).Some?
    ensures '.' !in k
    ensures Lookup(es, k).value.Section? ==> WellKeyed(Lookup(es, k).value.entries)
  {
    var i := LookupIndex(es, k);
  }

  lemma {:induction false} WellKeyedPut(es: seq<Entry>, k: string, v: Value)
    requires WellKeyed(es) && '.' !in k && (v.Section? ==> WellKeyed(v.entries))
    ensures WellKeyed(Put(es, k, v))
  {
    PutKeepsKeysUnique(es, k, v);
    var r := Put(es, k, v);
    if es != [] && es[0].key != k {
      WellKeyedTail(es);
      WellKeyedPut(es[1..], k, v);
      forall i | 0 < i < |r| ensures r[i] == Put(es[1..], k, v)[i - 1] { }
    } else if es != [] {
      forall i | 0 < i < |r| ensures r[i] == es[i] { }
    }
  }

  lemma {:induction false} WellKeyedPutAt(es: seq<Entry>, path: seq<string>, k: string, v: Value)
    requires WellKeyed(es) && '.' !in k && forall i :: 0 <= i < |path| ==> '.' !in path[i]
    requires !v.Section?
    ensures WellKeyed(PutAt(es, path, k, v))
    decreases |path|
  {
    if path == [] {
      WellKeyedPut(es, k, v);
    } else {
      var child := ChildOrNew(es, path[0]);
      if Lookup(es, path[0]).Some? {
        WellKeyedLookup(es, path[0]);
      }
      WellKeyedPutAt(child, path[1..], k, v);
      WellKeyedPut(es, path[0], Section(PutAt(child, path[1..], k, v)));
    }
  }

  lemma {:induction false} WellKeyedDelete(es: seq<Entry>, k: string)
    requires WellKeyed(es)
    ensures WellKeyed(Delete(es, k))
    ensures forall e :: e in Delete(es, k) ==> e in es
  {
    if es != [] {
      WellKeyedTail(es);
      WellKeyedDelete(es[1..], k);
      if es[0].key != k {
        var rest := Delete(es[1..], k);
        var r := [es[0]] + rest;
        forall j | 0 < j < |r| ensures r[j].key != es[0].key {
          assert r[j] == rest[j - 1] && rest[j - 1] in es[1..];
          var m :| 0 <= m < |es[1..]| && es[1..][m] == r[j];
          assert es[m + 1] == r[j];
        }
        forall i | 0 < i < |r| ensures r[i] == rest[i - 1] { }
      }
    }
  }

  lemma {:induction false} WellKeyedRemoveAt(es: seq<Entry>, path: seq<string>, k: string)
    requires WellKeyed(es)
    ensures WellKeyed(RemoveAt(es, path, k))
    decreases |path|
  {
    if path == [] {
      WellKeyedDelete(es, k);
    } else if Lookup(es, path[0]).Some? && Lookup(es, path[0]).value.Section? {
      var child := Lookup(es, path[0]).value.entries;
      WellKeyedLookup(es, path[0]);
      WellKeyedRemoveAt(child, path[1..], k);
      WellKeyedPut(es, path[0], Section(RemoveAt(child, path[1..], k)));
    }
  }

  lemma {:induction false} WellKeyedCreateAt(es: seq<Entry>, path: seq<string>)
    requires WellKeyed(es) && forall i :: 0 <= i < |path| ==> '.' !in path[i]
    ensures WellKeyed(CreateAt(es, path))
    decreases |path|
  {
    if path != [] {
      var child := ChildOrNew(es, path[0]);
      if Lookup(es, path[0]).Some? {
        WellKeyedLookup(es, path[0]);
      }
      WellKeyedCreateAt(child, path[1..]);
      WellKeyedPut(es, path[0], Section(CreateAt(child, path[1..])));
    }
  }

  /** `set` keeps keys distinct and dot-free: a dotted path always becomes nested configurations. */
  lemma SetKeepsWellKeyed(es: seq<Entry>, pathUri: string, newValue: Option<Value>)
    requires WellKeyed(es) && SetSpec(es, pathUri, newValue).Ok?
    ensures WellKeyed(SetSpec(es, pathUri, newValue).value)
  {
    var (path, k) := Segments(pathUri).value;
    if newValue.None? {
      WellKeyedRemoveAt(es, path, k);
    } else {
      if '.' in pathUri {
        SplitPiecesFree(pathUri, '.');
        var pieces := Split(pathUri, '.');
        assert path == pieces[..|pieces| - 1] && k == pieces[|pieces| - 1];
      }
      WellKeyedPutAt(es, path, k, newValue.value);
    }
  }

  /** `remove` keeps keys distinct and dot-free. */
  lemma RemoveKeepsWellKeyed(es: seq<Entry>, pathUri: string)
    requires WellKeyed(es) && RemoveSpec(es, pathUri).Ok?
    ensures WellKeyed(RemoveSpec(es, pathUri).value)
  {
    var (path, k) := Segments(pathUri).value;
    WellKeyedRemoveAt(es, path, k);
  }

  /** Concretely, `contains("a.b", type)` reports a value that `get("a.b")` does not see. */
  lemma ContainsTypedFinding()
    ensures var es := [Entry("a", Section([])), Entry("b", Bool(true))];
      && ContainsTypedAsWritten(es, "a.b", BooleanType) == Ok(true)
      && GetSpec(es, "a.b") == Ok(None)
      && ContainsTyped(es, "a.b", BooleanType) == Ok(false)
  {
    var es := [Entry("a", Section([])), Entry("b", Bool(true))];
    var p := "a.b";
    assert p[1] == '.';
    assert IndexOf(p, '.') == Some(1);
    assert p[..1] == "a" && p[2..] == "b" && IndexOf("b", '.') == None;
    assert Pieces("b", '.') == ["b"];
    assert Pieces(p, '.') == ["a", "b"];
    assert Split(p, '.') == ["a", "b"];
    assert Segments(p) == Some((["a"], "b"));
  }

  /** The same fault through `isConfiguration("a.b")`: a configuration under the root key `b` is reported at
      `a.b`, where there is nothing. */
  lemma IsConfigurationFinding()
    ensures var es := [Entry("a", Section([])), Entry("b", Section([]))];
      && IsConfiguration(es, "a.b") == Ok(true)
      && GetSpec(es, "a.b") == Ok(None)
      && IsConfigurationRepaired(es, "a.b") == Ok(false)
  {
    var p := "a.b";
    assert p[1] == '.';
    assert IndexOf(p, '.') == Some(1);
    assert p[..1] == "a" && p[2..] == "b" && IndexOf("b", '.') == None;
    assert Pieces("b", '.') == ["b"];
    assert Pieces(p, '.') == ["a", "b"];
    assert Split(p, '.') == ["a", "b"];
    assert Segments(p) == Some((["a"], "b"));
  }
}
