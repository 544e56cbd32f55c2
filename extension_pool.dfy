/**
 * `ExtensionPoolImpl`: the runtime side of extension discovery. It translates class names between the
 * original package and the package a shaded copy runs in, keeps the lockable condition map, and builds a
 * pool by reading the index the build-time processor wrote, filtering every listed class by existence,
 * assignability and its `@ExtensionCondition`s, and optionally instantiating it with the plugin as the
 * only constructor argument.
 *
 * Class lookup (`ClassUtil.findClass`) is a map from name to `ClassInfo`; the index resource is an
 * `IndexSource` value; an instance is the constructor chosen and the arguments it was invoked with.
 */
module ExtensionPool {

  import opened Outcomes
  import opened Text
  import opened Reflection
  import Indexer

  /*
   * Name translation
   */

  const OriginalPackage: string := "me.lauriichan.minecraft.pluginbase"

  /** `resolveToClassPath`, run from a copy whose package is `shadedPackage`; the copy is shaded when that
      differs from the original package. The prefix test is textual, not per package segment. */
  function ResolveToClassPath(shadedPackage: string, path: string): (r: string)
    ensures shadedPackage == OriginalPackage || !StartsWith(path, OriginalPackage) ==> r == path
    ensures shadedPackage != OriginalPackage && StartsWith(path, OriginalPackage) ==>
              StartsWith(r, shadedPackage) && r[|shadedPackage|..] == path[|OriginalPackage|..]
  {
    if shadedPackage == OriginalPackage || !StartsWith(path, OriginalPackage) then path
    else shadedPackage + path[|OriginalPackage|..]
  }

  /** `resolveFromClassPath`: the same rewrite in the other direction. */
  function ResolveFromClassPath(shadedPackage: string, path: string): (r: string)
    ensures shadedPackage == OriginalPackage || !StartsWith(path, shadedPackage) ==> r == path
    ensures shadedPackage != OriginalPackage && StartsWith(path, shadedPackage) ==>
              StartsWith(r, OriginalPackage) && r[|OriginalPackage|..] == path[|shadedPackage|..]
  {
    if shadedPackage == OriginalPackage || !StartsWith(path, shadedPackage) then path
    else OriginalPackage + path[|shadedPackage|..]
  }

  /** A name under the original package survives the trip to the class path and back. */
  lemma ResolveRoundTrip(shadedPackage: string, path: string)
    requires StartsWith(path, OriginalPackage)
    ensures ResolveFromClassPath(shadedPackage, ResolveToClassPath(shadedPackage, path)) == path
  {
    if shadedPackage != OriginalPackage {
      var r := ResolveToClassPath(shadedPackage, path);
      assert r[..|shadedPackage|] == shadedPackage;
      assert path == OriginalPackage + path[|OriginalPackage|..];
    }
  }

  /** A name under the shaded package survives the trip to the original name and back. */
  lemma ResolveRoundTripShaded(shadedPackage: string, path: string)
    requires StartsWith(path, shadedPackage)
    ensures ResolveToClassPath(shadedPackage, ResolveFromClassPath(shadedPackage, path)) == path
  {
    if shadedPackage != OriginalPackage {
      var r := ResolveFromClassPath(shadedPackage, path);
      assert r[..|OriginalPackage|] == OriginalPackage;
      assert path == shadedPackage + path[|shadedPackage|..];
    }
  }

  /** The prefix test is not segment-aware: a sibling package whose name merely begins with the original
      package's name is rewritten as well. */
  lemma ResolveIsTextual()
    ensures ResolveToClassPath("com.example.lib", "me.lauriichan.minecraft.pluginbasement.Foo")
         == "com.example.libment.Foo"
  {
    var path := "me.lauriichan.minecraft.pluginbasement.Foo";
    assert path[..|OriginalPackage|] == OriginalPackage;
    assert path[|OriginalPackage|..] == "ment.Foo";
  }

  /*
   * Condition map
   */

  /** `ConditionMapImpl`: a string to boolean map that reads `false` for an absent key and ignores writes once locked. */
  class ConditionMap {

    var values: map<string, bool>
    var locked: bool

    constructor ()
      ensures values == map[] && !locked
    {
      values := map[];
      locked := false;
    }

    /** `value(property)`: the stored value, `false` when the key is absent. */
    function Value(property: string): (r: bool)
      reads this
      ensures property !in values ==> !r
      ensures property in values ==> r == values[property]
    {
      property in values && values[property]
    }

    /** `set(property)`: the key is present. */
    predicate IsSet(property: string)
      reads this
    {
      property in values
    }

    /** `value(property, value)`. */
    method SetValue(property: string, value: bool)
      modifies this
      ensures locked == old(locked)
      ensures old(locked) ==> values == old(values)
      ensures !old(locked) ==> values == old(values)[property := value]
    {
      if locked {
        return;
      }
      values := values[property := value];
    }

    /** `unset(property)`. */
    method Unset(property: string)
      modifies this
      ensures locked == old(locked)
      ensures old(locked) ==> values == old(values)
      ensures !old(locked) ==> values == old(values) - {property}
    {
      if locked {
        return;
      }
      values := values - {property};
    }

    /** `lock()`: one way, and repeating it changes nothing. */
    method Lock()
      modifies this
      ensures locked && values == old(values)
    {
      locked := true;
    }
  }

  /** An `@ExtensionCondition`; the annotation's defaults are `condition = true`, `activeByDefault = false`. */
  datatype Condition = Condition(name: string, condition: bool, activeByDefault: bool)

  function DefaultCondition(name: string): Condition {
    Condition(name, true, false)
  }

  /** Whether one condition lets a class through, written as the read loop's negated disabling test. It holds
      exactly when the key is present with the required value, or absent and the condition is active by default. */
  function Holds(values: map<string, bool>, c: Condition): (r: bool)
    ensures r <==> if c.name in values then values[c.name] == c.condition else c.activeByDefault
  {
    var isSet := c.name in values;
    var value := isSet && values[c.name];
    !((isSet && value != c.condition) || (!isSet && !c.activeByDefault))
  }

  /** A class passes the condition filter when there is no condition map, or when all its conditions hold. */
  predicate Admitted(conditionMap: Option<map<string, bool>>, conditions: seq<Condition>) {
    conditionMap.None? || forall i :: 0 <= i < |conditions| ==> Holds(conditionMap.value, conditions[i])
  }

  const MultilangConfig: string := "pluginbase.multilang.config"

  /** The conditions on `BasicMessageConfig` and `AdvancedMessageConfig`. */
  const BasicMessageCondition: Condition := Condition(MultilangConfig, false, true)
  const AdvancedMessageCondition: Condition := Condition(MultilangConfig, true, false)

  /** Whatever the condition map holds, exactly one of the two message configurations is active. */
  lemma ExactlyOneMessageConfig(values: map<string, bool>)
    ensures Admitted(Some(values), [BasicMessageCondition]) != Admitted(Some(values), [AdvancedMessageCondition])
  {
    var basic, advanced := [BasicMessageCondition], [AdvancedMessageCondition];
    assert basic[0] == BasicMessageCondition && advanced[0] == AdvancedMessageCondition;
    assert Admitted(Some(values), basic) == Holds(values, basic[0]);
    assert Admitted(Some(values), advanced) == Holds(values, advanced[0]);
  }

  /** A condition left at its defaults admits a class only when its key is explicitly set to `true`. */
  lemma DefaultConditionNeedsTrue(values: map<string, bool>, name: string)
    ensures Holds(values, DefaultCondition(name)) <==> name in values && values[name]
  {
  }

  /*
   * Building a pool
   */

  /** A class the runtime can find: its name, every type name it is assignable to (itself included),
      whether it is an `@ExtensionPoint`, its `@ExtensionCondition`s in declaration order, and its public constructors. */
  datatype ClassInfo = ClassInfo(
    name: string,
    supertypes: set<string>,
    extensionPoint: bool,
    conditions: seq<Condition>,
    constructors: seq<Constructor>)

  /** `to.isAssignableFrom(from)`. */
  predicate AssignableTo(from: ClassInfo, to: ClassInfo) {
    to.name in from.supertypes
  }

  /** The index resource: missing or unreadable, or readable with its text; `failsAfter = Some(n)` makes the
      read after the `n`-th line throw an `IOException`. */
  datatype IndexSource = Unavailable | Available(text: string, failsAfter: Option<nat>)

  /** What the loader sees of the plugin: the package it runs in, the classes it can find, its resources by
      path, its condition map (or none), and the type names of the plugin object passed to constructors. */
  datatype Runtime = Runtime(
    shadedPackage: string,
    classes: map<string, ClassInfo>,
    resources: map<string, IndexSource>,
    conditionMap: Option<map<string, bool>>,
    pluginTypes: set<string>)

  /** A created extension: its class, the constructor invoked and the arguments it received. */
  datatype Instance = Instance(className: string, ctor: nat, arguments: seq<Candidate>)

  /** The pool's final fields. */
  datatype Pool = Pool(typeName: string, instantiated: bool, extensions: seq<Instance>, extensionClasses: seq<string>)

  /** What one index line contributes. */
  datatype LineOutcome = Stop | Skip | Keep(className: string, instance: Option<Instance>)

  /** One iteration of the read loop. */
  function Step(rt: Runtime, poolType: ClassInfo, instantiate: bool, line: string): (r: LineOutcome)
    ensures r.Stop? <==> IsBlank(line)
    ensures r.Keep? && instantiate ==> r.instance.Some? && r.instance.value.className == r.className
    ensures r.Keep? && !instantiate ==> r.instance.None?
  {
    if IsBlank(line) then Stop
    else
      var path := ResolveToClassPath(rt.shadedPackage, line);
      if path !in rt.classes then Skip
      else
        var c := rt.classes[path];
        if !AssignableTo(c, poolType) then Skip
        else if !Admitted(rt.conditionMap, c.conditions) then Skip
        else if !instantiate then Keep(c.name, None)
        else match Creating(c.constructors, [Object(rt.pluginTypes)], true)
          case Created(k, args) => Keep(c.name, Some(Instance(c.name, k, args)))
          case _ => Skip
  }

  /** The class and instance lists the read loop collects from `lines`. */
  function Scan(rt: Runtime, poolType: ClassInfo, instantiate: bool, lines: seq<string>): (seq<string>, seq<Instance>)
    decreases |lines|
  {
    if lines == [] then ([], [])
    else match Step(rt, poolType, instantiate, lines[0])
      case Stop => ([], [])
      case Skip => Scan(rt, poolType, instantiate, lines[1..])
      case Keep(c, i) =>
        var (cs, ins) := Scan(rt, poolType, instantiate, lines[1..]);
        ([c] + cs, (if i.Some? then [i.value] else []) + ins)
  }

  /** `Scan` of a non-empty sequence, one line at a time. */
  lemma ScanFirst(rt: Runtime, poolType: ClassInfo, instantiate: bool, lines: seq<string>)
    requires lines != []
    ensures var o := Step(rt, poolType, instantiate, lines[0]);
      var rest := Scan(rt, poolType, instantiate, lines[1..]);
      && (o.Stop? ==> Scan(rt, poolType, instantiate, lines) == ([], []))
      && (!o.Stop? ==> Scan(rt, poolType, instantiate, lines).0 == KeptClass(o) + rest.0)
      && (!o.Stop? ==> Scan(rt, poolType, instantiate, lines).1 == KeptInstance(o) + rest.1)
  {
  }

  /** The lines read before the reader fails or runs out. */
  function Truncated(lines: seq<string>, failsAfter: Option<nat>): (r: seq<string>)
    ensures r <= lines
  {
    if failsAfter.Some? && failsAfter.value < |lines| then lines[..failsAfter.value] else lines
  }

  /** The pool the constructor builds, or the `IllegalArgumentException` it throws. */
  function Build(rt: Runtime, extensionType: ClassInfo, poolType: ClassInfo, instantiate: bool): Result<Pool, string>
  {
    var typeName := ResolveFromClassPath(rt.shadedPackage, extensionType.name);
    if !extensionType.extensionPoint then Err("The class '" + typeName + "' is not extendable!")
    else if !AssignableTo(poolType, extensionType) then
      Err("The class '" + ResolveFromClassPath(rt.shadedPackage, poolType.name) + "' can not be casted to '" + typeName + "'")
    else
      var path := Indexer.ExtensionPath(typeName);
      if path !in rt.resources || rt.resources[path].Unavailable? then Ok(Pool(typeName, instantiate, [], []))
      else
        var source := rt.resources[path];
        var scanned := Scan(rt, poolType, instantiate, Truncated(ReadLines(source.text), source.failsAfter));
        Ok(Pool(typeName, instantiate, scanned.1, scanned.0))
  }

  /** The constructor of `ExtensionPoolImpl`. */
  method Load(rt: Runtime, extensionType: ClassInfo, poolType: ClassInfo, instantiate: bool) returns (r: Result<Pool, string>)
    ensures r == Build(rt, extensionType, poolType, instantiate)
  {
    var typeName := ResolveFromClassPath(rt.shadedPackage, extensionType.name);
    if !extensionType.extensionPoint {
      return Err("The class '" + typeName + "' is not extendable!");
    }
    if !AssignableTo(poolType, extensionType) {
      return Err("The class '" + ResolveFromClassPath(rt.shadedPackage, poolType.name) + "' can not be casted to '" + typeName + "'");
    }
    var path := Indexer.ExtensionPath(typeName);
    if path !in rt.resources || rt.resources[path].Unavailable? {
      return Ok(Pool(typeName, instantiate, [], []));
    }
    var source := rt.resources[path];
    var extensionClasses, extensions := ReadIndex(rt, poolType, instantiate, ReadLines(source.text), source.failsAfter);
    return Ok(Pool(typeName, instantiate, extensions, extensionClasses));
  }

  /** The class a line's outcome adds to the class list. */
  function KeptClass(outcome: LineOutcome): seq<string> {
    if outcome.Keep? then [outcome.className] else []
  }

  /** The instance a line's outcome adds to the instance list. */
  function KeptInstance(outcome: LineOutcome): seq<Instance> {
    if outcome.Keep? && outcome.instance.Some? then [outcome.instance.value] else []
  }

  /** Reading one more non-blank line appends its outcome to what the lines before it collected. */
  lemma ScanExtend(rt: Runtime, poolType: ClassInfo, instantiate: bool, lines: seq<string>, i: nat)
    requires i < |lines| && !IsBlank(lines[i])
    requires forall j :: 0 <= j < i ==> !IsBlank(lines[j])
    ensures Scan(rt, poolType, instantiate, lines[..i + 1]).0
      == Scan(rt, poolType, instantiate, lines[..i]).0 + KeptClass(Step(rt, poolType, instantiate, lines[i]))
    ensures Scan(rt, poolType, instantiate, lines[..i + 1]).1
      == Scan(rt, poolType, instantiate, lines[..i]).1 + KeptInstance(Step(rt, poolType, instantiate, lines[i]))
  {
    assert lines[..i + 1] == lines[..i] + [lines[i]];
    ScanAppend(rt, poolType, instantiate, lines[..i], [lines[i]]);
    ScanFirst(rt, poolType, instantiate, [lines[i]]);
    assert [lines[i]][1..] == [];
  }

  /** The read loop over the index lines; `failsAfter` is where the reader throws, which ends the loop like the end of input. */
  method ReadIndex(rt: Runtime, poolType: ClassInfo, instantiate: bool, lines: seq<string>, failsAfter: Option<nat>)
    returns (extensionClasses: seq<string>, extensions: seq<Instance>)
    ensures (extensionClasses, extensions) == Scan(rt, poolType, instantiate, Truncated(lines, failsAfter))
  {
    var read := Truncated(lines, failsAfter);
    extensions := [];
    extensionClasses := [];
    var i := 0;
    while i < |read|
      invariant 0 <= i <= |read|
      invariant forall j :: 0 <= j < i ==> !IsBlank(read[j])
      invariant extensionClasses == Scan(rt, poolType, instantiate, read[..i]).0
      invariant extensions == Scan(rt, poolType, instantiate, read[..i]).1
    {
      var line := read[i];
      if IsBlank(line) {
        ScanStopsAtBlank(rt, poolType, instantiate, read, i);
        return;
      }
      ScanExtend(rt, poolType, instantiate, read, i);
      extensionClasses, extensions := ReadLine(rt, poolType, instantiate, line, extensionClasses, extensions);
      i := i + 1;
    }
    assert read[..i] == read;
  }

  /** One non-blank index line: its class, and its instance when the pool instantiates, are appended. */
  method ReadLine(rt: Runtime, poolType: ClassInfo, instantiate: bool, line: string,
                  extensionClasses: seq<string>, extensions: seq<Instance>)
    returns (classes': seq<string>, extensions': seq<Instance>)
    requires !IsBlank(line)
    ensures classes' == extensionClasses + KeptClass(Step(rt, poolType, instantiate, line))
    ensures extensions' == extensions + KeptInstance(Step(rt, poolType, instantiate, line))
  {
    classes', extensions' := extensionClasses, extensions;
    var outcome := Examine(rt, poolType, instantiate, line);
    if outcome.Keep? {
      if outcome.instance.Some? {
        extensions' := extensions' + [outcome.instance.value];
      }
      classes' := classes' + [outcome.className];
    }
  }

  /** The body of the read loop for a non-blank line: find the class, check it against the pool type and
      its conditions, and create the instance when the pool instantiates. */
  method Examine(rt: Runtime, poolType: ClassInfo, instantiate: bool, line: string) returns (outcome: LineOutcome)
    requires !IsBlank(line)
    ensures outcome == Step(rt, poolType, instantiate, line)
  {
    var clazzName := ResolveToClassPath(rt.shadedPackage, line);
    if clazzName !in rt.classes {
      return Skip;
    }
    var clazz := rt.classes[clazzName];
    if !AssignableTo(clazz, poolType) {
      return Skip;
    }
    if rt.conditionMap.Some? {
      var holds := CheckConditions(rt.conditionMap.value, clazz.conditions);
      if !holds {
        return Skip;
      }
    }
    if !instantiate {
      return Keep(clazz.name, None);
    }
    var created := CreateInstance(clazz.constructors, [Object(rt.pluginTypes)], true);
    if !created.Created? {
      return Skip;
    }
    return Keep(clazz.name, Some(Instance(clazz.name, created.ctor, created.arguments)));
  }

  /** The loop over a class's conditions, leaving at the first that disables it. */
  method CheckConditions(values: map<string, bool>, conditions: seq<Condition>) returns (holds: bool)
    ensures holds <==> Admitted(Some(values), conditions)
  {
    var n := 0;
    while n < |conditions|
      invariant 0 <= n <= |conditions|
      invariant forall j :: 0 <= j < n ==> Holds(values, conditions[j])
    {
      var condition := conditions[n];
      var isSet := condition.name in values;
      if (isSet && values[condition.name] != condition.condition) || (!isSet && !condition.activeByDefault) {
        return false;
      }
      n := n + 1;
    }
    return true;
  }

  /*
   * Properties of the read loop
   */

  /** The class list and the instance list stay aligned: without instantiation there are no instances; with
      it, the `j`-th instance belongs to the `j`-th class. */
  lemma {:induction false} ScanAligned(rt: Runtime, poolType: ClassInfo, instantiate: bool, lines: seq<string>)
    ensures var (cs, ins) := Scan(rt, poolType, instantiate, lines);
      && (!instantiate ==> ins == [])
      && (instantiate ==> |ins| == |cs| && forall j :: 0 <= j < |cs| ==> ins[j].className == cs[j])
    decreases |lines|
  {
    if lines != [] {
      ScanAligned(rt, poolType, instantiate, lines[1..]);
    }
  }

  /** The pool the constructor builds carries aligned lists. */
  lemma PoolAligned(rt: Runtime, extensionType: ClassInfo, poolType: ClassInfo, instantiate: bool)
    requires Build(rt, extensionType, poolType, instantiate).Ok?
    ensures var pool := Build(rt, extensionType, poolType, instantiate).value;
      && pool.instantiated == instantiate
      && (!instantiate ==> pool.extensions == [])
      && (instantiate ==>
            |pool.extensions| == |pool.extensionClasses| && forall j :: 0 <= j < |pool.extensions| ==> pool.extensions[j].className == pool.extensionClasses[j])
  {
    var typeName := ResolveFromClassPath(rt.shadedPackage, extensionType.name);
    var path := Indexer.ExtensionPath(typeName);
    if path in rt.resources && rt.resources[path].Available? {
      var source := rt.resources[path];
      ScanAligned(rt, poolType, instantiate, Truncated(ReadLines(source.text), source.failsAfter));
    }
  }

  /** Reading stops at the first blank line: nothing after it counts. */
  lemma {:induction false} ScanStopsAtBlank(rt: Runtime, poolType: ClassInfo, instantiate: bool, lines: seq<string>, k: nat)
    requires k < |lines| && IsBlank(lines[k])
    ensures Scan(rt, poolType, instantiate, lines) == Scan(rt, poolType, instantiate, lines[..k])
    decreases k
  {
    if k > 0 {
      assert lines[..k][0] == lines[0] && lines[..k][1..] == lines[1..][..k - 1];
      ScanStopsAtBlank(rt, poolType, instantiate, lines[1..], k - 1);
    }
  }

  /** Survivors keep file order: the lists of two blank-free stretches of the index are concatenated. */
  lemma {:induction false} ScanAppend(rt: Runtime, poolType: ClassInfo, instantiate: bool, a: seq<string>, b: seq<string>)
    requires forall j :: 0 <= j < |a| ==> !IsBlank(a[j])
    ensures Scan(rt, poolType, instantiate, a + b).0 == Scan(rt, poolType, instantiate, a).0 + Scan(rt, poolType, instantiate, b).0
    ensures Scan(rt, poolType, instantiate, a + b).1 == Scan(rt, poolType, instantiate, a).1 + Scan(rt, poolType, instantiate, b).1
    decreases |a|
  {
    if a == [] {
      assert a + b == b;
    } else {
      var ab := a + b;
      assert ab[0] == a[0] && ab[1..] == a[1..] + b;
      ScanAppend(rt, poolType, instantiate, a[1..], b);
      ScanFirst(rt, poolType, instantiate, ab);
      ScanFirst(rt, poolType, instantiate, a);
      var o := Step(rt, poolType, instantiate, a[0]);
      var sa, sb := Scan(rt, poolType, instantiate, a[1..]), Scan(rt, poolType, instantiate, b);
      assert KeptClass(o) + (sa.0 + sb.0) == (KeptClass(o) + sa.0) + sb.0;
      assert KeptInstance(o) + (sa.1 + sb.1) == (KeptInstance(o) + sa.1) + sb.1;
    }
  }

  /** An `IOException` part-way through keeps what was collected: the lists of a shorter read are prefixes. */
  lemma {:induction false} ScanPrefix(rt: Runtime, poolType: ClassInfo, instantiate: bool, lines: seq<string>, n: nat)
    requires n <= |lines|
    ensures Scan(rt, poolType, instantiate, lines[..n]).0 <= Scan(rt, poolType, instantiate, lines).0
    ensures Scan(rt, poolType, instantiate, lines[..n]).1 <= Scan(rt, poolType, instantiate, lines).1
    decreases n
  {
    if n > 0 {
      assert lines[..n][0] == lines[0] && lines[..n][1..] == lines[1..][..n - 1];
      ScanPrefix(rt, poolType, instantiate, lines[1..], n - 1);
    }
  }

  /** Without a condition map, conditions are ignored: a found, assignable class is always listed when the
      pool does not instantiate. */
  lemma NoConditionMapListsAll(rt: Runtime, poolType: ClassInfo, line: string)
    requires rt.conditionMap.None? && !IsBlank(line)
    requires ResolveToClassPath(rt.shadedPackage, line) in rt.classes
    requires AssignableTo(rt.classes[ResolveToClassPath(rt.shadedPackage, line)], poolType)
    ensures Step(rt, poolType, false, line) == Keep(rt.classes[ResolveToClassPath(rt.shadedPackage, line)].name, None)
  {
  }

  /** A missing or unreadable index gives two empty lists, not an error. */
  lemma MissingIndexGivesEmptyPool(rt: Runtime, extensionType: ClassInfo, poolType: ClassInfo, instantiate: bool)
    requires extensionType.extensionPoint && AssignableTo(poolType, extensionType)
    requires var path := Indexer.ExtensionPath(ResolveFromClassPath(rt.shadedPackage, extensionType.name));
      path !in rt.resources || rt.resources[path].Unavailable?
    ensures Build(rt, extensionType, poolType, instantiate).Ok?
    ensures Build(rt, extensionType, poolType, instantiate).value.extensions == []
    ensures Build(rt, extensionType, poolType, instantiate).value.extensionClasses == []
  {
  }

  /** A type that is no extension point, or that the pool type does not extend, is refused. */
  lemma RefusedTypes(rt: Runtime, extensionType: ClassInfo, poolType: ClassInfo, instantiate: bool)
    ensures Build(rt, extensionType, poolType, instantiate).Err? <==>
      !extensionType.extensionPoint || !AssignableTo(poolType, extensionType)
  {
  }

  /** A resource written by the build-time processor is read in full: every name it lists reaches the filter. */
  lemma {:induction false} IndexReadInFull(rt: Runtime, poolType: ClassInfo, instantiate: bool, names: seq<string>)
    requires forall i :: 0 <= i < |names| ==> Indexer.ValidName(names[i])
    ensures Scan(rt, poolType, instantiate, ReadLines(Indexer.Render(names))) == Scan(rt, poolType, instantiate, names)
  {
    Indexer.ReadBackRender(names);
  }
}
