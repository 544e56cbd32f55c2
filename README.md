# SpigotPluginBase core, modelled in Dafny

SpigotPluginBase is a base library for Bukkit/Spigot server plugins. Its centre is an extension system with two halves:

- **Build time:** an annotation processor (`ExtensionProcessor`) files every `@Extension` class under the `@ExtensionPoint` interfaces it implements. It writes one index resource per extension point.
- **Run time:** the plugin builds extension pools (`ExtensionPoolImpl`). A pool reads an index, keeps the listed classes that exist, fit the pool's type and satisfy their `@ExtensionCondition`s against the plugin's lockable condition map, and optionally instantiates them. The constructor for an instance is picked by `ReflectionUtil`.

Around this centre the library has further parts:

- A dotted-path, insertion-ordered configuration tree (`Configuration`).
- Its JSON, message and language codecs.
- The reload/save step sequence with status codes (`ConfigWrapper`).
- `type://path` resource URIs (`ResourceManager`).
- The `uuid` command argument.
- The plugin lifecycle state machine (`BasePlugin`).
- Two bridges between the server's commands and the command manager.

The model has one module per source file. Two helper modules sit beside them:

- `Text` holds the `String`/`BufferedReader` behaviour the code relies on.
- `Outcomes` holds the `Option` and `Result` types used for `null` returns and thrown exceptions.

Objects that the source updates in place are classes:

- the condition map;
- the processor;
- the configuration;
- the wrapper;
- the resource manager;
- the plugin;
- the command builder and the bridges.

Each method of those classes is proved against a function of the old state. The lemmas are stated about those functions.

Java reflection, the file system, Gson and the server are replaced by inputs:

- a class table;
- the index text and where reading it fails;
- a type graph;
- a parsed JSON tree;
- a directory listing;
- what each hook does or whether it throws.

## Model

| member | source | states |
|---|---|---|
| Text.SplitJoin | src/main/java/me/lauriichan/minecraft/pluginbase/message/config/basic/MessageConfigHandler.java:90-91 | `split` on one character keeps every piece of a string that does not end in it, so joining the pieces gives the string back |
| Text.SplitPiecesFree | src/main/java/me/lauriichan/minecraft/pluginbase/config/Configuration.java:38 | no piece of a split key contains the separator |
| Text.DropTrailingEmpty | src/main/java/me/lauriichan/minecraft/pluginbase/config/Configuration.java:38 | `split` drops exactly the trailing empty pieces and keeps the rest in order |
| Text.ToLowerAscii | src/main/java/me/lauriichan/minecraft/pluginbase/command/bridge/BukkitCommandInjectableBridge.java:77 | lower-casing keeps the length and maps exactly the ASCII capitals to their small letters |
| ExtensionPool.ResolveToClassPath | src/main/java/me/lauriichan/minecraft/pluginbase/ExtensionPoolImpl.java:29-34 | the name is unchanged when the copy is not shaded or the name does not textually start with the original package; otherwise that leading text is replaced by the shaded package |
| ExtensionPool.ResolveFromClassPath | src/main/java/me/lauriichan/minecraft/pluginbase/ExtensionPoolImpl.java:36-41 | the same rewrite from the shaded package back to the original one |
| ExtensionPool.ResolveRoundTrip | src/main/java/me/lauriichan/minecraft/pluginbase/ExtensionPoolImpl.java:29-41 | a name under the original package comes back unchanged from `resolveFromClassPath(resolveToClassPath(x))` |
| ExtensionPool.ResolveRoundTripShaded | src/main/java/me/lauriichan/minecraft/pluginbase/ExtensionPoolImpl.java:29-41 | a name under the shaded package comes back unchanged from the opposite round trip |
| ExtensionPool.ResolveIsTextual | src/main/java/me/lauriichan/minecraft/pluginbase/ExtensionPoolImpl.java:30-33 | the prefix test is textual, not by package segment: `...pluginbasement.Foo` is rewritten too |
| ExtensionPool.ConditionMap.constructor | src/main/java/me/lauriichan/minecraft/pluginbase/ExtensionPoolImpl.java:49-54 | a new condition map is empty and unlocked |
| ExtensionPool.ConditionMap.Value | src/main/java/me/lauriichan/minecraft/pluginbase/ExtensionPoolImpl.java:56-59 | `value(k)` is `false` for an absent key and the stored value otherwise |
| ExtensionPool.ConditionMap.SetValue | src/main/java/me/lauriichan/minecraft/pluginbase/ExtensionPoolImpl.java:61-67 | `value(k, v)` stores `v` unless locked, when it changes nothing; the lock is untouched |
| ExtensionPool.ConditionMap.Unset | src/main/java/me/lauriichan/minecraft/pluginbase/ExtensionPoolImpl.java:74-80 | `unset(k)` removes the key unless locked, when it changes nothing |
| ExtensionPool.ConditionMap.Lock | src/main/java/me/lauriichan/minecraft/pluginbase/ExtensionPoolImpl.java:87-89 | `lock()` sets the lock, keeps the values, and repeating it changes nothing |
| ExtensionPool.Holds | src/main/java/me/lauriichan/minecraft/pluginbase/ExtensionPoolImpl.java:148-149 | a condition holds iff its key is present with the required value, or absent and the condition is active by default |
| ExtensionPool.DefaultConditionNeedsTrue | src/main/java/me/lauriichan/minecraft/pluginbase/extension/ExtensionCondition.java:16-18 | with the annotation's defaults a condition holds iff its key is present and `true` |
| ExtensionPool.ExactlyOneMessageConfig | src/main/java/me/lauriichan/minecraft/pluginbase/ExtensionPoolImpl.java:148-149 | for every condition map exactly one of the basic and the advanced message configuration passes the filter on `pluginbase.multilang.config` |
| ExtensionPool.CheckConditions | src/main/java/me/lauriichan/minecraft/pluginbase/ExtensionPoolImpl.java:144-156 | the loop over a class's conditions accepts it iff every condition holds |
| ExtensionPool.Step | src/main/java/me/lauriichan/minecraft/pluginbase/ExtensionPoolImpl.java:130-175 | a line ends the read iff it is blank; a kept class carries an instance of that same class iff the pool instantiates |
| ExtensionPool.Examine | src/main/java/me/lauriichan/minecraft/pluginbase/ExtensionPoolImpl.java:134-175 | the body of the read loop for a non-blank line computes that line's outcome: unknown, unassignable, disabled or uninstantiable classes are skipped |
| ExtensionPool.ReadLine | src/main/java/me/lauriichan/minecraft/pluginbase/ExtensionPoolImpl.java:157-175 | a non-blank line appends its class, and its instance when the pool instantiates, to the two lists |
| ExtensionPool.ReadIndex | src/main/java/me/lauriichan/minecraft/pluginbase/ExtensionPoolImpl.java:123-181 | the read loop yields exactly the lists the specification `Scan` gives for the lines read before the reader failed or ran out |
| ExtensionPool.Load | src/main/java/me/lauriichan/minecraft/pluginbase/ExtensionPoolImpl.java:102-184 | the constructor either throws for a type that is no extension point or not a supertype of the pool type, or builds the pool from the index |
| ExtensionPool.RefusedTypes | src/main/java/me/lauriichan/minecraft/pluginbase/ExtensionPoolImpl.java:107-113 | construction fails iff the extension type is not `@ExtensionPoint` or the pool type is not assignable to it |
| ExtensionPool.MissingIndexGivesEmptyPool | src/main/java/me/lauriichan/minecraft/pluginbase/ExtensionPoolImpl.java:116-119 | a missing or unreadable index gives two empty lists, not an error |
| ExtensionPool.ScanStopsAtBlank | src/main/java/me/lauriichan/minecraft/pluginbase/ExtensionPoolImpl.java:130-133 | nothing after the first blank line is read |
| ExtensionPool.ScanAppend | src/main/java/me/lauriichan/minecraft/pluginbase/ExtensionPoolImpl.java:159-175 | survivors keep file order: the lists of a blank-free stretch followed by more lines are the concatenation of their lists |
| ExtensionPool.ScanPrefix | src/main/java/me/lauriichan/minecraft/pluginbase/ExtensionPoolImpl.java:177-181 | an `IOException` part-way through keeps what was collected: the lists of a shorter read are prefixes of the full ones |
| ExtensionPool.ScanAligned | src/main/java/me/lauriichan/minecraft/pluginbase/ExtensionPoolImpl.java:157-175 | without instantiation the instance list is empty; with it both lists have equal length and the `j`-th instance belongs to the `j`-th class |
| ExtensionPool.PoolAligned | src/main/java/me/lauriichan/minecraft/pluginbase/ExtensionPoolImpl.java:180-181 | every pool the constructor builds carries aligned class and instance lists |
| ExtensionPool.NoConditionMapListsAll | src/main/java/me/lauriichan/minecraft/pluginbase/ExtensionPoolImpl.java:144-160 | without a condition map, a found and assignable class is listed whatever its conditions say |
| ExtensionPool.IndexReadInFull | src/main/java/me/lauriichan/minecraft/pluginbase/ExtensionPoolImpl.java:130-133 | an index written by the build-time processor has no blank line before its end, so every name it lists reaches the filter |
| Indexer.ExtensionPath | src/main/java/me/lauriichan/minecraft/pluginbase/extension/processor/ExtensionProcessor.java:35-39 | the resource path is `META-INF/extension/` followed by exactly the type name |
| Indexer.ExtensionPathInjective | src/main/java/me/lauriichan/minecraft/pluginbase/extension/processor/ExtensionProcessor.java:37-39 | two type names with the same resource path are equal |
| Indexer.NestedIffReachable | src/main/java/me/lauriichan/minecraft/pluginbase/extension/processor/ExtensionProcessor.java:206-218 | `isInterfaceNested(list, s)` holds iff a type named `s` is reachable from `list` along interface edges |
| Indexer.AddName | src/main/java/me/lauriichan/minecraft/pluginbase/extension/processor/ExtensionProcessor.java:159-175 | adding a name to a set of buckets creates the missing buckets and puts the name in exactly those buckets |
| Indexer.AddNameTwice | src/main/java/me/lauriichan/minecraft/pluginbase/extension/processor/ExtensionProcessor.java:159-175 | filing a name under two sets of points one after the other equals filing it under their union |
| Indexer.AddNameIdempotent | src/main/java/me/lauriichan/minecraft/pluginbase/extension/processor/ExtensionProcessor.java:159-162 | buckets are sets: filing the same name under the same points again changes nothing |
| Indexer.AddNameOne | src/main/java/me/lauriichan/minecraft/pluginbase/extension/processor/ExtensionProcessor.java:159-162 | filing under one point adds the name to that bucket only, creating it when missing |
| Indexer.WalkPointStep | src/main/java/me/lauriichan/minecraft/pluginbase/extension/processor/ExtensionProcessor.java:159-175 | an interface that already has a bucket, or is an `@ExtensionPoint`, receives the name and is not descended into |
| Indexer.WalkDescendStep | src/main/java/me/lauriichan/minecraft/pluginbase/extension/processor/ExtensionProcessor.java:164-171 | a plain extension interface enqueues its parent interfaces instead |
| Indexer.WalkFilesTargets | src/main/java/me/lauriichan/minecraft/pluginbase/extension/processor/ExtensionProcessor.java:153-176 | whatever the visiting order, the breadth-first walk files the name under exactly the extension points reachable through plain extension interfaces |
| Indexer.AddPointsFilesAllTargets | src/main/java/me/lauriichan/minecraft/pluginbase/extension/processor/ExtensionProcessor.java:153-182 | `addToPoints` files the name under exactly the extension points of its interfaces and of every superclass that is an extension |
| Indexer.RejectedTouchesNothing | src/main/java/me/lauriichan/minecraft/pluginbase/extension/processor/ExtensionProcessor.java:116-148 | a non-type, a non-extension, an abstract type, a name already processed or a type in both roles touches neither the names nor the buckets |
| Indexer.BothRolesNeverIndexed | src/main/java/me/lauriichan/minecraft/pluginbase/extension/processor/ExtensionProcessor.java:116-124 | an `@ExtensionPoint` whose interfaces reach `IExtension` is reported and never indexed |
| Indexer.ExtensionProcessor.constructor | src/main/java/me/lauriichan/minecraft/pluginbase/extension/processor/ExtensionProcessor.java:41-42 | a processor starts with no names and no buckets |
| Indexer.ExtensionProcessor.AddToPoints | src/main/java/me/lauriichan/minecraft/pluginbase/extension/processor/ExtensionProcessor.java:153-182 | the queue loop and the superclass recursion leave the buckets as the walk specification says, and the names untouched |
| Indexer.ExtensionProcessor.ProcessExtension | src/main/java/me/lauriichan/minecraft/pluginbase/extension/processor/ExtensionProcessor.java:128-151 | rejections change nothing; an indexed type is recorded and filed under its extension points |
| Indexer.ExtensionProcessor.PreProcessExtension | src/main/java/me/lauriichan/minecraft/pluginbase/extension/processor/ExtensionProcessor.java:116-126 | the both-roles check comes first, then `processExtension` |
| Indexer.ExtensionProcessor.Process | src/main/java/me/lauriichan/minecraft/pluginbase/extension/processor/ExtensionProcessor.java:69-114 | the final round does nothing; any other round starts from empty state, skips annotation types in the first loop, ends in the state `Round` gives, and emits its buckets as `Emit` does |
| Indexer.ExtensionProcessor.Emit | src/main/java/me/lauriichan/minecraft/pluginbase/extension/processor/ExtensionProcessor.java:95-111 | the emission fails iff some non-empty bucket's resource throws; it writes only resources of non-empty buckets, none for a bucket that throws, each listing every name of its bucket exactly once; without a failure it writes all of them |
| Indexer.AllTargetsArePoints | src/main/java/me/lauriichan/minecraft/pluginbase/extension/processor/ExtensionProcessor.java:153-182 | every extension point a type is filed under is an extension point among the types its walk sees |
| Indexer.HoldsKeysArePoints | src/main/java/me/lauriichan/minecraft/pluginbase/extension/processor/ExtensionProcessor.java:153-182 | while the buckets are those of indexed types, a type that names a bucket is an extension point |
| Indexer.IndexStep | src/main/java/me/lauriichan/minecraft/pluginbase/extension/processor/ExtensionProcessor.java:116-151 | one `preProcessExtension` keeps names and buckets equal to those of the eligible types seen so far |
| Indexer.RoundBuckets | src/main/java/me/lauriichan/minecraft/pluginbase/extension/processor/ExtensionProcessor.java:69-92 | when a name denotes one type, a round's names are those of the eligible types, whatever their order; the bucket of extension point `k` holds exactly the eligible types that reach `k`, no bucket is empty, and every bucket is named after an extension point |
| Indexer.EnumerateBucket | src/main/java/me/lauriichan/minecraft/pluginbase/extension/processor/ExtensionProcessor.java:103-106 | the iteration over a bucket lists each of its names exactly once |
| Indexer.ReadBackRender | src/main/java/me/lauriichan/minecraft/pluginbase/extension/processor/ExtensionProcessor.java:103-106 | reading a written resource line by line gives back the names, so it holds no blank line for the runtime reader to stop at |
| Reflection.FirstFit | src/main/java/me/lauriichan/minecraft/pluginbase/util/ReflectionUtil.java:51-57 | the index bound to a parameter is the lowest candidate assignable to it, and none when no candidate is |
| Reflection.FindArgument | src/main/java/me/lauriichan/minecraft/pluginbase/util/ReflectionUtil.java:51-57 | the inner search loop finds exactly that lowest assignable candidate |
| Reflection.CountBoundAll | src/main/java/me/lauriichan/minecraft/pluginbase/util/ReflectionUtil.java:47-59 | the count of bound parameters reaches the parameter count iff every parameter finds a candidate |
| Reflection.BindParameters | src/main/java/me/lauriichan/minecraft/pluginbase/util/ReflectionUtil.java:47-58 | one constructor's binding loop counts the bound parameters and records, for each bound one, the lowest assignable candidate |
| Reflection.ChooseFrom | src/main/java/me/lauriichan/minecraft/pluginbase/util/ReflectionUtil.java:40-64 | the constructor chosen is fully satisfied |
| Reflection.ChooseFromIsBest | src/main/java/me/lauriichan/minecraft/pluginbase/util/ReflectionUtil.java:42-46 | there is no choice iff no constructor is fully satisfied; otherwise no satisfied constructor has more parameters and every earlier satisfied one has fewer, so ties keep the earlier one |
| Reflection.SelectConstructor | src/main/java/me/lauriichan/minecraft/pluginbase/util/ReflectionUtil.java:37-64 | the selection loop yields that choice, with one bound candidate index per parameter of the chosen constructor |
| Reflection.FirstNull | src/main/java/me/lauriichan/minecraft/pluginbase/util/ReflectionUtil.java:29-36 | the first `null` candidate, if any, is found |
| Reflection.CreateInstance | src/main/java/me/lauriichan/minecraft/pluginbase/util/ReflectionUtil.java:24-125 | both creation methods compute the specification `Creating`: no constructors, a null candidate, no satisfied constructor, a throwing constructor, or an instance |
| Reflection.NoConstructorsGiveNull | src/main/java/me/lauriichan/minecraft/pluginbase/util/ReflectionUtil.java:25-28 | a type without public constructors yields `null`, even when a candidate is `null` |
| Reflection.NullCandidateRejected | src/main/java/me/lauriichan/minecraft/pluginbase/util/ReflectionUtil.java:29-36 | otherwise a `null` candidate raises `IllegalArgumentException` naming the first `null` index, before any matching |
| Reflection.CreatedIsBest | src/main/java/me/lauriichan/minecraft/pluginbase/util/ReflectionUtil.java:59-72 | an instance comes from the best satisfied constructor and its argument `i` is the first candidate assignable to parameter `i`, so the array has the constructor's parameter count |
| Reflection.UnsatisfiableGivesNull | src/main/java/me/lauriichan/minecraft/pluginbase/util/ReflectionUtil.java:65-67 | when no constructor is fully satisfied the result is `null` |
| Reflection.ThrowsVariantSameSelection | src/main/java/me/lauriichan/minecraft/pluginbase/util/ReflectionUtil.java:76-125 | `createInstanceThrows` makes the same selection and differs only in letting the constructor's exception through |
| Config.Lookup | src/main/java/me/lauriichan/minecraft/pluginbase/config/Configuration.java:12 | `map.get(k)` is absent iff no entry has key `k` |
| Config.LookupIndex | src/main/java/me/lauriichan/minecraft/pluginbase/config/Configuration.java:12 | a found value is the value of an entry with that key |
| Config.Keys | src/main/java/me/lauriichan/minecraft/pluginbase/config/Configuration.java:18-20 | `keySet()` lists the entries' keys, in insertion order |
| Config.Put | src/main/java/me/lauriichan/minecraft/pluginbase/config/Configuration.java:35 | after `map.put(k, v)` the key maps to `v` |
| Config.PutOthers | src/main/java/me/lauriichan/minecraft/pluginbase/config/Configuration.java:35 | `map.put(k, v)` leaves every other key's value as it was |
| Config.PutKeys | src/main/java/me/lauriichan/minecraft/pluginbase/config/Configuration.java:12 | the linked map keeps insertion order: an existing key stays where it was, a new one goes last |
| Config.PutAbsent | src/main/java/me/lauriichan/minecraft/pluginbase/config/Configuration.java:12 | putting a new key appends its entry |
| Config.PutLast | src/main/java/me/lauriichan/minecraft/pluginbase/config/Configuration.java:12 | putting the key added last again replaces its value in place |
| Config.PutSame | src/main/java/me/lauriichan/minecraft/pluginbase/config/Configuration.java:35 | putting the value a key already has changes nothing |
| Config.PutKeepsKeysUnique | src/main/java/me/lauriichan/minecraft/pluginbase/config/Configuration.java:12 | the map's keys stay distinct under `put` |
| Config.Delete | src/main/java/me/lauriichan/minecraft/pluginbase/config/Configuration.java:44 | after `map.remove(k)` the key is absent and every other key is unchanged; removing an absent key changes nothing |
| Config.Configuration.constructor | src/main/java/me/lauriichan/minecraft/pluginbase/config/Configuration.java:12 | a new configuration is empty |
| Config.Configuration.Set | src/main/java/me/lauriichan/minecraft/pluginbase/config/Configuration.java:26-40 | `set` leaves the map as the specification `SetSpec` says, or throws and changes nothing; it keeps keys distinct and dot-free |
| Config.GetAfterSet | src/main/java/me/lauriichan/minecraft/pluginbase/config/Configuration.java:26-39 | after `set(p, v)` with `v` neither `null` nor a configuration, `get(p)` returns `v` |
| Config.SetFailures | src/main/java/me/lauriichan/minecraft/pluginbase/config/Configuration.java:31-33 | `set` throws `IllegalStateException` iff the value is a configuration, and otherwise fails only for a path of dots |
| Config.GetAtPutAt | src/main/java/me/lauriichan/minecraft/pluginbase/config/Configuration.java:38-39 | the value put at the end of a path walked with creation is found by walking that path again |
| Config.PutAtLeavesOthers | src/main/java/me/lauriichan/minecraft/pluginbase/config/Configuration.java:270-277 | creating configurations and putting along one path leaves every path that diverges from it as it was |
| Config.SetLeavesOthers | src/main/java/me/lauriichan/minecraft/pluginbase/config/Configuration.java:34-39 | `set(p, v)` changes nothing at any path that diverges from `p` |
| Config.SetKeepsWellKeyed | src/main/java/me/lauriichan/minecraft/pluginbase/config/Configuration.java:26-40 | `set` keeps keys distinct and dot-free at every level: a dotted path always becomes nested configurations |
| Config.RemoveKeepsWellKeyed | src/main/java/me/lauriichan/minecraft/pluginbase/config/Configuration.java:42-53 | `remove` keeps keys distinct and dot-free at every level |
| Config.WellKeyedCreateAt | src/main/java/me/lauriichan/minecraft/pluginbase/config/Configuration.java:226-266 | creating the configurations along a path keeps keys distinct and dot-free |
| Config.Configuration.Remove | src/main/java/me/lauriichan/minecraft/pluginbase/config/Configuration.java:42-53 | `remove` leaves the map as `RemoveSpec` says; a path of dots throws and changes nothing; it keeps keys distinct and dot-free |
| Config.GetAfterRemove | src/main/java/me/lauriichan/minecraft/pluginbase/config/Configuration.java:42-53 | after `remove(p)`, `get(p)` is `null` |
| Config.RemoveMissing | src/main/java/me/lauriichan/minecraft/pluginbase/config/Configuration.java:47-52 | removing what is not there creates and changes nothing, however much of the path is missing |
| Config.RemoveMissingParent | src/main/java/me/lauriichan/minecraft/pluginbase/config/Configuration.java:48-51 | when an intermediate configuration is missing, `remove` is a no-op |
| Config.Configuration.Clear | src/main/java/me/lauriichan/minecraft/pluginbase/config/Configuration.java:55-57 | `clear()` empties the map, which has distinct, dot-free keys |
| Config.ContainsSpec | src/main/java/me/lauriichan/minecraft/pluginbase/config/Configuration.java:63-70 | `contains(p)` holds iff `get(p)` is not `null`, and fails exactly where `get` does |
| Config.Configuration.Contains | src/main/java/me/lauriichan/minecraft/pluginbase/config/Configuration.java:63-70 | `contains` computes `ContainsSpec` without changing anything |
| Config.Configuration.ContainsOfType | src/main/java/me/lauriichan/minecraft/pluginbase/config/Configuration.java:72-84 | `contains(p, type)` as written, without changing anything |
| Config.ContainsTyped | src/main/java/me/lauriichan/minecraft/pluginbase/config/Configuration.java:72-84 | `contains(p, type)` as intended holds iff the value at `p` exists and has the type |
| Config.ContainsTypedFinding | src/main/java/me/lauriichan/minecraft/pluginbase/config/Configuration.java:82 | with `a` an empty configuration and `b = true` at the root, `contains("a.b", Boolean)` is true as written although `get("a.b")` is `null` |
| Config.Configuration.Get | src/main/java/me/lauriichan/minecraft/pluginbase/config/Configuration.java:90-100 | `get` computes `GetSpec` without changing anything |
| Config.GetTyped | src/main/java/me/lauriichan/minecraft/pluginbase/config/Configuration.java:102-108 | `get(p, type)` is `null` unless the value exists and its class is assignable to the type (an `Integer` is not a `BigInteger`), in which case it is that value |
| Config.GetTypedOr | src/main/java/me/lauriichan/minecraft/pluginbase/config/Configuration.java:110-116 | `get(p, type, fallback)` is the typed value, or the fallback when the value is absent or of another type |
| Config.GetBoolean | src/main/java/me/lauriichan/minecraft/pluginbase/config/Configuration.java:126-132 | `getBoolean` returns a stored boolean, and the fallback for anything else |
| Config.IntValue | src/main/java/me/lauriichan/minecraft/pluginbase/config/Configuration.java:167 | `intValue()` is the integer's low 32 bits read as two's complement, the integer itself when it fits |
| Config.GetInt | src/main/java/me/lauriichan/minecraft/pluginbase/config/Configuration.java:162-168 | `getInt` returns a stored number's `intValue()` (for a `BigDecimal`, that of its integer part), and the fallback for anything that is not a number |
| Config.IsConfiguration | src/main/java/me/lauriichan/minecraft/pluginbase/config/Configuration.java:222-224 | `isConfiguration(p)` as written throws exactly when `get(p)` does, and on a path without a dot it agrees with the corrected version |
| Config.IsConfigurationRepaired | src/main/java/me/lauriichan/minecraft/pluginbase/config/Configuration.java:222-224 | over the corrected typed `contains`, `isConfiguration(p)` holds iff the value at `p` is a configuration |
| Config.IsConfigurationFinding | src/main/java/me/lauriichan/minecraft/pluginbase/config/Configuration.java:222-224 | for root `{a: {}, b: {}}`, `isConfiguration("a.b")` is true while `get("a.b")` is `null` |
| Config.Configuration.GetConfiguration | src/main/java/me/lauriichan/minecraft/pluginbase/config/Configuration.java:230-232 | `getConfiguration(p, create)` splits the whole path and walks it, creating configurations only when asked; it keeps keys distinct and dot-free |
| Config.GetConfigurationNeverNull | src/main/java/me/lauriichan/minecraft/pluginbase/config/Configuration.java:230-232 | `getConfiguration(p, true)` never returns `null` |
| Config.CreateAtFinds | src/main/java/me/lauriichan/minecraft/pluginbase/config/Configuration.java:270-282 | after the creating walk, every configuration along the path exists |
| Config.CreateAtExisting | src/main/java/me/lauriichan/minecraft/pluginbase/config/Configuration.java:270-282 | the creating walk over a path that already exists changes nothing |
| Config.Configuration.FindConfiguration | src/main/java/me/lauriichan/minecraft/pluginbase/config/Configuration.java:266-283 | the non-creating walk stops at `min(length, path.length)` segments and returns `null` as soon as a segment is missing or not a configuration |
| Config.GetAtIsResolve | src/main/java/me/lauriichan/minecraft/pluginbase/config/Configuration.java:90-100 | walking to a parent and looking the key up there is resolving the full path |
| Wrapper.StatusCodes | src/main/java/me/lauriichan/minecraft/pluginbase/config/ConfigWrapper.java:11-28 | the six codes are distinct; among 0–5 a code is a failure iff it is an IO or a data error, and no code is both |
| Wrapper.ConfigWrapper.constructor | src/main/java/me/lauriichan/minecraft/pluginbase/config/ConfigWrapper.java:36 | `lastTimeModified` starts at -1 |
| Wrapper.ConfigWrapper.Reload | src/main/java/me/lauriichan/minecraft/pluginbase/config/ConfigWrapper.java:61-98 | `reload` returns the code, and leaves the stamp, that the step sequence `ReloadSpec` gives; `onSave` and `handler.save` get the configuration as `onLoad` changed it, or an empty one after a wipe |
| Wrapper.ConfigWrapper.Save | src/main/java/me/lauriichan/minecraft/pluginbase/config/ConfigWrapper.java:100-119 | `save` returns the code, and leaves the stamp, that `SaveSpec` gives |
| Wrapper.ConfigWrapper.SaveConfiguration | src/main/java/me/lauriichan/minecraft/pluginbase/config/ConfigWrapper.java:84-96 | `onSave` then `handler.save`, with the first failure deciding the code and the stamp updated only after a successful save |
| Wrapper.ReloadSkipped | src/main/java/me/lauriichan/minecraft/pluginbase/config/ConfigWrapper.java:63-66 | a reload is `SKIPPED` iff the source exists with the remembered stamp, and then nothing runs and the stamp stays |
| Wrapper.ReloadFirstFailure | src/main/java/me/lauriichan/minecraft/pluginbase/config/ConfigWrapper.java:67-97 | the first failing step decides the code and no later step runs; `SUCCESS` means every step ran |
| Wrapper.ReloadStamp | src/main/java/me/lauriichan/minecraft/pluginbase/config/ConfigWrapper.java:67-93 | the stamp changes only after a successful handler load or a successful handler save |
| Wrapper.ReloadInputs | src/main/java/me/lauriichan/minecraft/pluginbase/config/ConfigWrapper.java:62-89 | without a source `onLoad` gets an empty configuration; with one it gets what the handler read; `onSave` gets what `onLoad` left, or an empty configuration after a wipe |
| Wrapper.SaveSkipped | src/main/java/me/lauriichan/minecraft/pluginbase/config/ConfigWrapper.java:100-118 | a save is `SKIPPED` iff it is not forced, the configuration is unmodified and the source exists; otherwise `onSave` starts empty, and the stamp changes only on `SUCCESS` |
| JsonConfig.NatTextValue | src/main/java/me/lauriichan/minecraft/pluginbase/config/handler/JsonConfigHandler.java:86 | the decimal digits of a natural number read back as that number |
| JsonConfig.IntegerTextRoundTrip | src/main/java/me/lauriichan/minecraft/pluginbase/config/handler/JsonConfigHandler.java:84-89 | an integer's text is accepted by `BigInteger` and parses back to the integer |
| JsonConfig.LoadToConfig | src/main/java/me/lauriichan/minecraft/pluginbase/config/handler/JsonConfigHandler.java:43-59 | the member walk leaves the configuration that `LoadObject` gives, or reports the exception it throws |
| JsonConfig.LoadMemberInto | src/main/java/me/lauriichan/minecraft/pluginbase/config/handler/JsonConfigHandler.java:45-57 | one member: `null` changes nothing, an object is loaded into the created sub-configuration and written back, anything else is converted and `set` |
| JsonConfig.LoadErrKept | src/main/java/me/lauriichan/minecraft/pluginbase/config/handler/JsonConfigHandler.java:44-58 | once a member throws, the walk throws that exception whatever members follow |
| JsonConfig.SaveToObject | src/main/java/me/lauriichan/minecraft/pluginbase/config/handler/JsonConfigHandler.java:103-118 | the members written are those `SaveObject` gives, in key order |
| JsonConfig.FromArray | src/main/java/me/lauriichan/minecraft/pluginbase/config/handler/JsonConfigHandler.java:65-78 | an array never converts to more elements than it has |
| JsonConfig.DeserializeArray | src/main/java/me/lauriichan/minecraft/pluginbase/config/handler/JsonConfigHandler.java:65-78 | the list built is `FromArray` of the array |
| JsonConfig.ToJsonArray | src/main/java/me/lauriichan/minecraft/pluginbase/config/handler/JsonConfigHandler.java:121-126 | a list is written as an array of the same length |
| JsonConfig.Serialize | src/main/java/me/lauriichan/minecraft/pluginbase/config/handler/JsonConfigHandler.java:120-141 | the element built is `ToJson` of the value |
| JsonConfig.PrimitiveKinds | src/main/java/me/lauriichan/minecraft/pluginbase/config/handler/JsonConfigHandler.java:80-92 | booleans stay booleans, strings stay strings, a number is a `BigInteger` exactly when its text is an integer and a `BigDecimal` otherwise |
| JsonConfig.FromArrayDropsObjectsAndNulls | src/main/java/me/lauriichan/minecraft/pluginbase/config/handler/JsonConfigHandler.java:68-70 | an array of only objects and `null`s loads as an empty list |
| JsonConfig.SaveOmits | src/main/java/me/lauriichan/minecraft/pluginbase/config/handler/JsonConfigHandler.java:120-141 | exactly configurations and objects of other classes have no JSON form; a character is written as a one-character string |
| JsonConfig.ListElementWithoutForm | src/main/java/me/lauriichan/minecraft/pluginbase/config/handler/JsonConfigHandler.java:123-124 | a list element without a JSON form is written as `null` |
| JsonConfig.PlainListRoundTrip | src/main/java/me/lauriichan/minecraft/pluginbase/config/handler/JsonConfigHandler.java:65-78 | a list of plain values (decimals only in the form `BigDecimal.toString()` prints) written as an array loads back as the same list |
| JsonConfig.PlainRoundTrip | src/main/java/me/lauriichan/minecraft/pluginbase/config/handler/JsonConfigHandler.java:120-141 | a plain value is written as an array or a primitive that converts back to the value; a decimal counts as plain only when its text is what `BigDecimal.toString()` prints with a positive scale |
| JsonConfig.DecimalTextNotInteger | src/main/java/me/lauriichan/minecraft/pluginbase/config/handler/JsonConfigHandler.java:84-89 | such a decimal text is refused by `BigInteger`, so it loads as a `BigDecimal` again |
| JsonConfig.DecimalTextAccepts | src/main/java/me/lauriichan/minecraft/pluginbase/config/handler/JsonConfigHandler.java:131-133 | `1.5` and `-0.25` are printed as written, so they count as plain |
| JsonConfig.ScaleZeroDecimalNotPlain | src/main/java/me/lauriichan/minecraft/pluginbase/config/handler/JsonConfigHandler.java:84-89 | `1.5e1` has scale 0 and is printed `15`, which loads as a `BigInteger`, so it is not plain |
| JsonConfig.RewrittenDecimalsNotPlain | src/main/java/me/lauriichan/minecraft/pluginbase/config/handler/JsonConfigHandler.java:131-133 | `-0.0` (printed `0.0`) and `0.0000001` (printed `1E-7`) are not plain |
| JsonConfig.IntegralLoadsAsBigInteger | src/main/java/me/lauriichan/minecraft/pluginbase/config/handler/JsonConfigHandler.java:80-92 | an `Integer` or `Long` is saved as its decimal text and loads back as a `BigInteger` of the same value |
| JsonConfig.SectionMemberLoads | src/main/java/me/lauriichan/minecraft/pluginbase/config/handler/JsonConfigHandler.java:49-51 | an object member under a new dot-free key appends the configuration its members load into |
| JsonConfig.SectionCreated | src/main/java/me/lauriichan/minecraft/pluginbase/config/handler/JsonConfigHandler.java:50 | `getConfiguration(key, true)` for a new dot-free key appends an empty configuration and returns it |
| JsonConfig.SectionWrittenBack | src/main/java/me/lauriichan/minecraft/pluginbase/config/handler/JsonConfigHandler.java:50 | the loaded sub-configuration replaces the empty one just created |
| JsonConfig.LeafMemberLoads | src/main/java/me/lauriichan/minecraft/pluginbase/config/handler/JsonConfigHandler.java:53-57 | an array or primitive member under a new dot-free key appends its converted value |
| JsonConfig.SaveLoadRoundTrip | src/main/java/me/lauriichan/minecraft/pluginbase/config/handler/JsonConfigHandler.java:43-59 | loading a saved well-keyed configuration into an empty one rebuilds it, whenever every leaf's conversions invert each other |
| JsonConfig.JsonRoundTrip | src/main/java/me/lauriichan/minecraft/pluginbase/config/handler/JsonConfigHandler.java:32-118 | saving a configuration of plain values as JSON and loading the result into an empty configuration gives the configuration back; decimals are covered only in the form `BigDecimal.toString()` prints |
| JsonConfig.LoadNeverIllegalState | src/main/java/me/lauriichan/minecraft/pluginbase/config/handler/JsonConfigHandler.java:43-59 | with conversions that never give a configuration, the member walk never throws `IllegalStateException` |
| JsonConfig.RootMustBeObject | src/main/java/me/lauriichan/minecraft/pluginbase/config/handler/JsonConfigHandler.java:37-40 | a load throws `IllegalStateException` exactly when the root is not an object |
| JsonConfig.JsonRootMustBeObject | src/main/java/me/lauriichan/minecraft/pluginbase/config/handler/JsonConfigHandler.java:37-39 | the JSON handler rejects exactly the roots that are not objects |
| JsonConfig.DottedKeyNests | src/main/java/me/lauriichan/minecraft/pluginbase/config/handler/JsonConfigHandler.java:54-57 | a dotted member key is a path: `{"a.b": true}` loads as `a` holding `b` |
| MessageConfig.PrimitiveStrings | src/main/java/me/lauriichan/minecraft/pluginbase/message/config/basic/MessageConfigHandler.java:49-59 | an array never gives more lines than it has elements |
| MessageConfig.JoinArray | src/main/java/me/lauriichan/minecraft/pluginbase/message/config/basic/MessageConfigHandler.java:47-60 | the text built joins the strings of the array's primitives with line breaks, skipping every other element |
| MessageConfig.LineArray | src/main/java/me/lauriichan/minecraft/pluginbase/message/config/basic/MessageConfigHandler.java:91-95 | the array has one string element per line, in order |
| MessageConfig.LinesToArray | src/main/java/me/lauriichan/minecraft/pluginbase/message/config/basic/MessageConfigHandler.java:91-95 | the array built is `LineArray` of the lines |
| MessageConfig.LineArrayStrings | src/main/java/me/lauriichan/minecraft/pluginbase/message/config/basic/MessageConfigHandler.java:47-60 | the lines written as an array read back as the same lines |
| MessageConfig.MessageTextRoundTrip | src/main/java/me/lauriichan/minecraft/pluginbase/message/config/basic/MessageConfigHandler.java:86-99 | a string not ending in a line break is written as a string or a line array that reads back as the string |
| MessageConfig.MessageRoundTrip | src/main/java/me/lauriichan/minecraft/pluginbase/message/config/basic/MessageConfigHandler.java:24-101 | saving a well-keyed configuration of such strings and loading the result into an empty configuration gives it back |
| MessageConfig.TrailingLineBreakLost | src/main/java/me/lauriichan/minecraft/pluginbase/message/config/basic/MessageConfigHandler.java:90-91 | `"a\n"` is written as `["a"]`, which loads back as `"a"`: the trailing line break is lost |
| MessageConfig.OnlyStringsSaved | src/main/java/me/lauriichan/minecraft/pluginbase/message/config/basic/MessageConfigHandler.java:86-89 | exactly the string values are written; configurations go through the nested walk and other values are skipped |
| MessageConfig.MessageRootMustBeObject | src/main/java/me/lauriichan/minecraft/pluginbase/message/config/basic/MessageConfigHandler.java:30-32 | the message handler rejects exactly the roots that are not objects |
| LanguageConfig.LastIndexOf | src/main/java/me/lauriichan/minecraft/pluginbase/message/config/advanced/LanguageConfigHandler.java:37 | `lastIndexOf('.')`: -1 when there is no dot, otherwise the position of a dot with no dot after it |
| LanguageConfig.Selected | src/main/java/me/lauriichan/minecraft/pluginbase/message/config/advanced/LanguageConfigHandler.java:22 | the listing keeps only regular files whose names end in `.json`, never more files than listed |
| LanguageConfig.LoadLanguages | src/main/java/me/lauriichan/minecraft/pluginbase/message/config/advanced/LanguageConfigHandler.java:20-34 | the configuration ends as `LanguageLoad` gives: nothing for a missing or empty listing, otherwise each valid language name's file loaded by the message handler into its sub-configuration, stopping at the first exception |
| LanguageConfig.LoadFileInto | src/main/java/me/lauriichan/minecraft/pluginbase/message/config/advanced/LanguageConfigHandler.java:28-32 | one file: an invalid name is skipped, a valid one's document is loaded into `getConfiguration(name, true)` |
| LanguageConfig.LoadFilesErrKept | src/main/java/me/lauriichan/minecraft/pluginbase/message/config/advanced/LanguageConfigHandler.java:27-33 | once a file's load throws, the whole load throws that exception |
| LanguageConfig.SaveLanguages | src/main/java/me/lauriichan/minecraft/pluginbase/message/config/advanced/LanguageConfigHandler.java:42-47 | the files written are `K.json` for the top-level keys in order, each the message handler's save of `K`'s configuration; a top-level value that is not a configuration stops the save |
| LanguageConfig.LanguageSaveFailedKept | src/main/java/me/lauriichan/minecraft/pluginbase/message/config/advanced/LanguageConfigHandler.java:44-46 | once a save fails, later keys write nothing |
| LanguageConfig.SaveFailsOnNonSection | src/main/java/me/lauriichan/minecraft/pluginbase/message/config/advanced/LanguageConfigHandler.java:44-45 | a save fails exactly when some top-level value is not a configuration |
| LanguageConfig.ExtractedNameInvalid | src/main/java/me/lauriichan/minecraft/pluginbase/message/config/advanced/LanguageConfigHandler.java:15-39 | as written, `extractName` of a `.json` name keeps the dot, so the name never matches `[a-z][a-z\-]*` |
| LanguageConfig.NoLanguageFileLoads | src/main/java/me/lauriichan/minecraft/pluginbase/message/config/advanced/LanguageConfigHandler.java:27-33 | as written, every listed file is skipped and loading leaves the configuration unchanged |
| LanguageConfig.LanguageLoadAsWrittenIgnoresFiles | src/main/java/me/lauriichan/minecraft/pluginbase/message/config/advanced/LanguageConfigHandler.java:20-34 | as written, a language load never changes the configuration, whatever the directory holds |
| LanguageConfig.ExtractNameOfSaved | src/main/java/me/lauriichan/minecraft/pluginbase/message/config/advanced/LanguageConfigHandler.java:36-45 | for a dot-free key `K`, the corrected `extractName` of `K.json` is `K`, while the code as written gives `K.` |
| LanguageConfig.LanguageRoundTrip | src/main/java/me/lauriichan/minecraft/pluginbase/message/config/advanced/LanguageConfigHandler.java:20-47 | with the corrected `extractName`, the files a save writes for valid language configurations load back into an empty configuration as the same configuration, when the listing returns them in save order |
| Resources.SeparatorFrom | src/main/java/me/lauriichan/minecraft/pluginbase/resource/ResourceManager.java:47 | the first `://` at or after a position, or none when there is none |
| Resources.Separator | src/main/java/me/lauriichan/minecraft/pluginbase/resource/ResourceManager.java:47 | `indexOf("://")`: the first occurrence, or none |
| Resources.Parse | src/main/java/me/lauriichan/minecraft/pluginbase/resource/ResourceManager.java:13-60 | a named type is never blank and consists of ASCII letters only |
| Resources.ResourceManager.constructor | src/main/java/me/lauriichan/minecraft/pluginbase/resource/ResourceManager.java:16-22 | a new manager has no providers and no default |
| Resources.ResourceManager.SetDefault | src/main/java/me/lauriichan/minecraft/pluginbase/resource/ResourceManager.java:28-30 | the default changes and the providers stay |
| Resources.ResourceManager.Register | src/main/java/me/lauriichan/minecraft/pluginbase/resource/ResourceManager.java:36-44 | a null or blank type, a type already taken and a null provider are refused in that order and change nothing; otherwise exactly that type is added |
| Resources.ResourceManager.TypeFor | src/main/java/me/lauriichan/minecraft/pluginbase/resource/ResourceManager.java:46-60 | a well-formed non-blank type names its provider, anything else falls back to the default |
| Resources.ResourceManager.Resolve | src/main/java/me/lauriichan/minecraft/pluginbase/resource/ResourceManager.java:46-69 | resolution succeeds exactly when the chosen type has a provider, which is handed the path; otherwise "unknown resource type" names the type |
| Resources.NoSeparatorUsesDefault | src/main/java/me/lauriichan/minecraft/pluginbase/resource/ResourceManager.java:47-50 | a path without `://` goes whole to the default provider |
| Resources.PathFollowsFirstSeparator | src/main/java/me/lauriichan/minecraft/pluginbase/resource/ResourceManager.java:51-58 | whatever the type, the path is everything after the first `://` |
| Resources.SeparatorAfterLetters | src/main/java/me/lauriichan/minecraft/pluginbase/resource/ResourceManager.java:47 | after a run of letters, the first `://` is the one right after them |
| Resources.NamedType | src/main/java/me/lauriichan/minecraft/pluginbase/resource/ResourceManager.java:55-60 | `t://p` with non-empty letters `t` and a path without line terminators resolves through `t` with path `p` |
| Resources.EmptyTypeUsesDefault | src/main/java/me/lauriichan/minecraft/pluginbase/resource/ResourceManager.java:57-58 | `://p` resolves through the default provider with path `p` |
| Resources.NonLetterTypeUsesDefault | src/main/java/me/lauriichan/minecraft/pluginbase/resource/ResourceManager.java:52-53 | a type holding a non-letter fails the pattern and the default provider gets the text after `://` (`a-b://x` gives `x`) |
| Resources.LineBreakUsesDefault | src/main/java/me/lauriichan/minecraft/pluginbase/resource/ResourceManager.java:52-53 | when the path holds a line terminator the pattern fails and the default provider gets the text after `://` |
| Resources.RegisteredResolves | src/main/java/me/lauriichan/minecraft/pluginbase/resource/ResourceManager.java:60-68 | a registered type resolves to its own provider with the path |
| Resources.UnregisteredRefused | src/main/java/me/lauriichan/minecraft/pluginbase/resource/ResourceManager.java:63-66 | an unregistered type is refused as unknown |
| UuidArgument.Dashed | src/main/java/me/lauriichan/minecraft/pluginbase/command/argument/UUIDArgument.java:72-73 | the compact form is rebuilt as 36 characters with dashes at 8, 13, 18 and 23 |
| UuidArgument.RemoveDashes | src/main/java/me/lauriichan/minecraft/pluginbase/command/argument/UUIDArgument.java:63 | removing dashes never lengthens a string and leaves no dash |
| UuidArgument.Normalise | src/main/java/me/lauriichan/minecraft/pluginbase/command/argument/UUIDArgument.java:59-73 | `null` is refused; a dashed value is accepted iff it is 36 characters long and a dash-free one iff it is 32, each with its own message |
| UuidArgument.UuidFromString | src/main/java/me/lauriichan/minecraft/pluginbase/command/argument/UUIDArgument.java:59-74 | a length error stops before decoding; otherwise the result is what `UUID.fromString` gives for the dashed form |
| UuidArgument.Create | src/main/java/me/lauriichan/minecraft/pluginbase/command/argument/UUIDArgument.java:21-32 | the argument restricts input iff a non-empty array of UUIDs was given, and then to exactly those |
| UuidArgument.Parse | src/main/java/me/lauriichan/minecraft/pluginbase/command/argument/UUIDArgument.java:35-44 | parse errors pass through; without a restriction every parsed UUID is accepted; with one, exactly the UUIDs in the selection, the rest failing with "Invalid input" |
| UuidArgument.RemoveDashesAppend | src/main/java/me/lauriichan/minecraft/pluginbase/command/argument/UUIDArgument.java:63 | removing dashes distributes over concatenation |
| UuidArgument.GroupsUndashed | src/main/java/me/lauriichan/minecraft/pluginbase/command/argument/UUIDArgument.java:72-73 | joining five dash-free groups with dashes and removing the dashes gives the groups back |
| UuidArgument.DashedRoundTrip | src/main/java/me/lauriichan/minecraft/pluginbase/command/argument/UUIDArgument.java:69-73 | dashing a compact 32-character value and removing the dashes gives it back |
| UuidArgument.DashedGroups | src/main/java/me/lauriichan/minecraft/pluginbase/command/argument/UUIDArgument.java:63-67 | a 36-character value with dashes exactly at 8, 13, 18 and 23 is five dash-free groups joined by dashes |
| UuidArgument.UndashedRoundTrip | src/main/java/me/lauriichan/minecraft/pluginbase/command/argument/UUIDArgument.java:63-73 | removing the dashes from a canonical dashed value and dashing it again gives it back |
| UuidArgument.SpellingsAgree | src/main/java/me/lauriichan/minecraft/pluginbase/command/argument/UUIDArgument.java:63-73 | the compact and the dashed spelling of the same UUID parse alike |
| UuidArgument.OpenSelectionAcceptsAll | src/main/java/me/lauriichan/minecraft/pluginbase/command/argument/UUIDArgument.java:21-38 | without UUIDs given, parsing is exactly `uuidFromString` |
| Plugin.BasePlugin.constructor | src/main/java/me/lauriichan/minecraft/pluginbase/BasePlugin.java:41-54 | a new plugin is in state 0 with no jar root, managers, condition map, config manager or inventory registry |
| Plugin.BasePlugin.OnLoad | src/main/java/me/lauriichan/minecraft/pluginbase/BasePlugin.java:57-75 | outside states 0 and 4 nothing happens; a jar root that cannot be resolved throws before the state moves; otherwise state 1, both managers created, core then plugin load recorded |
| Plugin.BasePlugin.SetupConditionMap | src/main/java/me/lauriichan/minecraft/pluginbase/BasePlugin.java:226-230 | a fresh condition map holds the plugin's writes and is locked unless the plugin's setup throws |
| Plugin.BasePlugin.OnCoreEnable | src/main/java/me/lauriichan/minecraft/pluginbase/BasePlugin.java:214-241 | the core steps completed are `CoreEnableSteps`, the condition map is fresh, and the config manager exists iff configs were loaded |
| Plugin.BasePlugin.OnEnable | src/main/java/me/lauriichan/minecraft/pluginbase/BasePlugin.java:125-150 | the state follows `Transition`; when accepted the core enable, plugin enable and listener registration run, and an enable from state 4 goes on to ready |
| Plugin.BasePlugin.OnReady | src/main/java/me/lauriichan/minecraft/pluginbase/BasePlugin.java:152-168 | only from state 2: state 3, core then plugin ready recorded, and the inventory registry exists |
| Plugin.BasePlugin.OnDisable | src/main/java/me/lauriichan/minecraft/pluginbase/BasePlugin.java:170-186 | only from states 2 and 3: state 4, plugin then core disable recorded, and both managers cleared |
| Plugin.GuardedTransitions | src/main/java/me/lauriichan/minecraft/pluginbase/BasePlugin.java:57-175 | a call changes the state exactly when the state accepts it, and then into one of 1–4 |
| Plugin.RunInRange | src/main/java/me/lauriichan/minecraft/pluginbase/BasePlugin.java:42-175 | from state 0 every run of calls stays within 0–4 |
| Plugin.LeavingZeroNeedsLoad | src/main/java/me/lauriichan/minecraft/pluginbase/BasePlugin.java:58-64 | without `onLoad` the plugin never leaves state 0 |
| Plugin.FirstStart | src/main/java/me/lauriichan/minecraft/pluginbase/BasePlugin.java:57-175 | load, enable, ready and disable move a new plugin through states 1, 2, 3 and 4 |
| Plugin.EnableNeedsLoad | src/main/java/me/lauriichan/minecraft/pluginbase/BasePlugin.java:57-175 | from a new plugin, being enabled or later needs a load followed by an enable |
| Plugin.StartOrder | src/main/java/me/lauriichan/minecraft/pluginbase/BasePlugin.java:57-175 | from a new plugin, being ready or disabled needs a load, then an enable, then a server-ready or a disable |
| Plugin.CoreEnableOrder | src/main/java/me/lauriichan/minecraft/pluginbase/BasePlugin.java:214-220 | the core enable completes a prefix of condition map, messages, arguments and configs, nothing iff the condition setup throws, and configs iff no earlier step throws |
| Plugin.WrittenLast | src/main/java/me/lauriichan/minecraft/pluginbase/BasePlugin.java:226-229 | on the unlocked condition map the last write to a property decides it |
| Plugin.ReenableSkipsArguments | src/main/java/me/lauriichan/minecraft/pluginbase/BasePlugin.java:125-276 | as written, an enable after a disable finds both managers cleared and never registers arguments or loads configs |
| Plugin.RepairedReenableLoadsConfigs | src/main/java/me/lauriichan/minecraft/pluginbase/BasePlugin.java:125-133 | with `onCoreLoad` re-run when a manager is missing, a re-enable loads configs exactly as a first enable does |
| CommandBridge.Builder.constructor | src/main/java/me/lauriichan/minecraft/pluginbase/command/bridge/BukkitCommandInjectableBridge.java:45-52 | a new builder has the name, no aliases, no description and no prefix |
| CommandBridge.Builder.Prefix | src/main/java/me/lauriichan/minecraft/pluginbase/command/bridge/BukkitCommandInjectableBridge.java:54-57 | only the prefix changes |
| CommandBridge.Builder.Description | src/main/java/me/lauriichan/minecraft/pluginbase/command/bridge/BukkitCommandInjectableBridge.java:67-70 | only the description changes |
| CommandBridge.Builder.Alias | src/main/java/me/lauriichan/minecraft/pluginbase/command/bridge/BukkitCommandInjectableBridge.java:59-65 | an alias already present changes nothing, a new one is appended, so the aliases stay distinct |
| CommandBridge.Builder.Build | src/main/java/me/lauriichan/minecraft/pluginbase/command/bridge/BukkitCommandInjectableBridge.java:72-78 | the definition has the lower-cased prefix, or plugin name when the prefix is null or blank, the builder's name and description, and a view of the builder's alias list |
| CommandBridge.PrefixOrPlugin | src/main/java/me/lauriichan/minecraft/pluginbase/command/bridge/BukkitCommandInjectableBridge.java:73-76 | a non-blank prefix is kept, a null or blank one gives the plugin name |
| CommandBridge.CommandDefinition.constructor | src/main/java/me/lauriichan/minecraft/pluginbase/command/bridge/BukkitCommandInjectableBridge.java:30-37 | the record holds the given prefix, name, alias list and description |
| CommandBridge.CommandDefinition.Aliases | src/main/java/me/lauriichan/minecraft/pluginbase/command/bridge/BukkitCommandInjectableBridge.java:35 | the aliases are the builder's live list, read through an unmodifiable view |
| CommandBridge.AliasAfterBuild | src/main/java/me/lauriichan/minecraft/pluginbase/command/bridge/BukkitCommandInjectableBridge.java:35-65 | an alias added to the builder after `build` shows in the definition already built |
| CommandBridge.RemovalKeys | src/main/java/me/lauriichan/minecraft/pluginbase/command/bridge/BukkitCommandInjectableBridge.java:186-197 | for each name the plain key and then `prefix:name` are removed, in the order of the names |
| CommandBridge.InjectableCommandName | src/main/java/me/lauriichan/minecraft/pluginbase/command/bridge/BukkitCommandInjectableBridge.java:110-115 | the first argument names the command; with no arguments, `""` for suggestions and the fallback command otherwise |
| CommandBridge.InjectableCommandArguments | src/main/java/me/lauriichan/minecraft/pluginbase/command/bridge/BukkitCommandInjectableBridge.java:118-125 | the arguments after the first, none when there are at most one |
| CommandBridge.InjectableSplitsArguments | src/main/java/me/lauriichan/minecraft/pluginbase/command/bridge/BukkitCommandInjectableBridge.java:110-125 | for a non-empty argument list, the command name followed by the command arguments is the list again |
| CommandBridge.InjectableBridge.constructor | src/main/java/me/lauriichan/minecraft/pluginbase/command/bridge/BukkitCommandInjectableBridge.java:88-107 | a new bridge holds its definition, falls back to `help`, is not injected and has registered and removed nothing |
| CommandBridge.InjectableBridge.SetFallbackCommand | src/main/java/me/lauriichan/minecraft/pluginbase/command/bridge/BukkitCommandInjectableBridge.java:143-146 | only the fallback command changes |
| CommandBridge.InjectableBridge.CommandName | src/main/java/me/lauriichan/minecraft/pluginbase/command/bridge/BukkitCommandInjectableBridge.java:110-115 | the bridge's command name is `InjectableCommandName` with its current fallback |
| CommandBridge.InjectableBridge.Inject | src/main/java/me/lauriichan/minecraft/pluginbase/command/bridge/BukkitCommandInjectableBridge.java:160-175 | as written: when not injected the command is registered once more, and `injected` is never set |
| CommandBridge.InjectableBridge.Uninject | src/main/java/me/lauriichan/minecraft/pluginbase/command/bridge/BukkitCommandInjectableBridge.java:177-200 | as written: only an injected bridge removes its keys, and `injected` is never cleared |
| CommandBridge.InjectableBridge.InjectOnce | src/main/java/me/lauriichan/minecraft/pluginbase/command/bridge/BukkitCommandInjectableBridge.java:160-175 | corrected: the first inject registers and sets `injected`, a second does nothing |
| CommandBridge.InjectableBridge.UninjectOnce | src/main/java/me/lauriichan/minecraft/pluginbase/command/bridge/BukkitCommandInjectableBridge.java:177-200 | corrected: an injected bridge removes the `RemovalKeys` of its aliases and name and clears `injected` |
| CommandBridge.InjectTwiceAsWritten | src/main/java/me/lauriichan/minecraft/pluginbase/command/bridge/BukkitCommandInjectableBridge.java:92-200 | as written, injecting twice registers the command twice, and uninject then removes nothing |
| CommandBridge.InjectTwiceRepaired | src/main/java/me/lauriichan/minecraft/pluginbase/command/bridge/BukkitCommandInjectableBridge.java:160-200 | corrected, injecting twice registers once and uninject removes every alias and the name, plain and prefixed |
| CommandBridge.LeadingSlashes | src/main/java/me/lauriichan/minecraft/pluginbase/command/bridge/BukkitCommandRedirectBridge.java:25-27 | the number of leading `/` characters: all of them, and no more |
| CommandBridge.LeadingSlashesExact | src/main/java/me/lauriichan/minecraft/pluginbase/command/bridge/BukkitCommandRedirectBridge.java:25-27 | a prefix of exactly `k` slashes is counted as `k` |
| CommandBridge.RedirectBridge.constructor | src/main/java/me/lauriichan/minecraft/pluginbase/command/bridge/BukkitCommandRedirectBridge.java:16-21 | the stored prefix is the given one followed by `:` |
| CommandBridge.RedirectBridge.CommandName | src/main/java/me/lauriichan/minecraft/pluginbase/command/bridge/BukkitCommandRedirectBridge.java:24-32 | the loop strips the leading slashes, then the prefix once if present, as `Redirected` |
| CommandBridge.RedirectBridge.CommandArguments | src/main/java/me/lauriichan/minecraft/pluginbase/command/bridge/BukkitCommandRedirectBridge.java:35-37 | the arguments pass through unchanged |
| CommandBridge.SlashesIgnored | src/main/java/me/lauriichan/minecraft/pluginbase/command/bridge/BukkitCommandRedirectBridge.java:25-27 | a leading slash does not change the command name |
| CommandBridge.PrefixRemoved | src/main/java/me/lauriichan/minecraft/pluginbase/command/bridge/BukkitCommandRedirectBridge.java:24-32 | `///prefix:name` gives `name` however many slashes lead |
| CommandBridge.OtherLabelKept | src/main/java/me/lauriichan/minecraft/pluginbase/command/bridge/BukkitCommandRedirectBridge.java:28-31 | a label without the prefix is kept once its slashes are stripped |

## Left out

- Gson's parsing and printing of JSON text: loading starts from a parsed `Json` tree and saving ends with the tree to print.
- `BigDecimal` arithmetic and floating point. A non-integral number is kept as its text and its integer part, and the integer part is taken as the parser supplies it, not derived from the text. `getByte`, `getShort`, `getLong`, `getFloat`, `getDouble`, `getNumber`, `getList` and `getMap` are not modelled, because they are further casts of the same lookup.
- Text.ToLowerAscii: `toLowerCase(Locale.ROOT)` is modelled on ASCII letters only, because there is no Unicode case table.
- Config.Configuration.GetConfiguration: returns the sub-configuration's contents as a value, not a live object. Callers that change a sub-configuration write it back with `ReplaceAt`, so aliasing between two references to the same sub-configuration is not modelled.
- Logging: every `logger` call is omitted. Hooks whose exceptions are caught and logged appear only as recorded steps.
- The annotation processing environment (`Filer`, `Messager`, `RoundEnvironment`): the processor's writes are a map from resource path to lines, and its errors are verdicts.
- Indexer.EnumerateBucket: the order in which a bucket's names are written is the hash set's and is left open. The lines are any enumeration without repeats.
- The file system: a language directory is given as a listing of files with their parsed contents, and a data source as whether it exists and its modification stamp.
- `UUID.fromString` decoding is a parameter of `UuidFromString`, because the model does not represent UUID values.
- `UUIDArgument.suggest`: left out, because it ranks by Levenshtein distance with floating-point weights.
- `ISourceProvider.provide` and the `jar`/`data` providers: a resolved source is the provider's identity and the path it is asked for.
- `loadLogger`, `loadResourceManager`, and the URI building in `loadResourceRoot`: only whether the jar root resolves is modelled.
- The server's command map, `PluginCommand` creation and listener registration: the injectable bridge counts registrations and records the keys it removes.
- `registerListeners`, `registerMessages` and the message, argument and config managers: these are recorded as steps or flags.
- `onTabComplete` and the command execution in the shared bridge base class are not part of this model.
- Concurrency: the `volatile` fields are modelled as ordinary fields, with one thread.
- The processor's and pool's class lookups read a fixed class table, so class loading side effects are not modelled.
- The language handler's `extractName` fault is logged under Findings. `LanguageLoad` uses the corrected name extraction, and `LanguageLoadAsWritten` keeps the code as written.
- Nothing is missing from the class-name translation, but note how it behaves. It uses a raw `startsWith` test, not a package-segment test, so in a shaded build a name such as `me.lauriichan.minecraft.pluginbasement.Foo` is rewritten too.
- JsonConfig.LoadMemberInto: the configuration's contents after an exception partway through are not stated. The only caller, `reload`, loads into a fresh configuration and drops it when the load throws.
- LanguageConfig.LoadFileInto: the configuration's contents after an exception partway through are not stated, for the same reason.
- Config.InstanceOf: only the classes the model enumerates are modelled. A `ClassType` is an exact-class test with no subtyping, so `CharSequence`, `Collection` and other supertypes match no value, and `Other` never stands for a `Number` (a `Short` or a `Byte` is not modelled).
- Config.Configuration.ContainsOfType: the type test is `Config.InstanceOf`, so a supertype of the stored class, or a `Short` or `Byte` asked for as a `Number`, gives false where Java gives true.
- Config.ContainsTyped: the same gap as `Config.InstanceOf` for supertypes and for `Number` classes the model does not enumerate.
- Config.GetTyped: gives `null` where Java's `isAssignableFrom` accepts a supertype, such as a `String` asked for as a `CharSequence`.
- Config.GetTypedOr: gives the fallback in the same supertype cases.
- Config.GetInt: a `Short` or `Byte` is not modelled, so the model cannot state that `getInt` returns its `intValue()`.
- JsonConfig.SaveOmits: `Other` stands only for non-`Number` classes. Java writes any `Number` subclass, such as a `Short`, as a number.
- JsonConfig.Serialize: a `BigDecimal` is written with its stored text, while Java writes `BigDecimal.toString()`. The two agree on the texts `DecimalText` accepts. `PlainRoundTrip`, `PlainListRoundTrip` and `JsonRoundTrip` are stated for those texts only. `ScaleZeroDecimalNotPlain` and `RewrittenDecimalsNotPlain` show texts outside them.
- LanguageConfig.LanguageRoundTrip: is proved for a listing that returns the files in save order only. `File.listFiles` promises no order, and other orders would change the order of the top-level keys, which the lemma does not cover.

## Findings

| source | as written | input that shows it | evidently intended | confidence | as-written member | corrected member |
|---|---|---|---|---|---|---|
| src/main/java/me/lauriichan/minecraft/pluginbase/message/config/advanced/LanguageConfigHandler.java:36-39 | `extractName` keeps the dot (`substring(0, index + 1)`), so every `.json` name gives a name ending in `.`, which `[a-z][a-z\-]*` rejects | a directory holding `en.json`: the name is `en.`, the file is skipped and nothing loads | the name before the last dot (`en`), so that the files `save` writes load back | high, not executed | LanguageConfig.NoLanguageFileLoads | LanguageConfig.LanguageRoundTrip |
| src/main/java/me/lauriichan/minecraft/pluginbase/config/Configuration.java:77-83 | for a dotted path, `contains(path, type)` looks the last segment up in the root map instead of the parent configuration, and `isConfiguration(path)` inherits this | root `{a: {}, b: true}`: `contains("a.b", Boolean.class)` is true while `get("a.b")` is `null` | look the last segment up in the parent configuration that was just found | high, not executed | Config.ContainsTypedFinding | Config.ContainsTyped |
| src/main/java/me/lauriichan/minecraft/pluginbase/command/bridge/BukkitCommandInjectableBridge.java:93-200 | `injected` is never assigned, so `inject()` registers again on every call and `uninject()` always returns at once | `inject(); inject(); uninject()`: two registrations and nothing removed | `inject()` sets `injected` and `uninject()` clears it | high, not executed | CommandBridge.InjectTwiceAsWritten | CommandBridge.InjectTwiceRepaired |
| src/main/java/me/lauriichan/minecraft/pluginbase/BasePlugin.java:125-276 | `onDisable` clears both managers, but `onEnable` accepts state 4 without re-running `onCoreLoad`, so the setup chain stops at the missing argument registry | `onLoad, onEnable, onDisable, onEnable`: the second enable registers no argument types and loads no configs | a re-enable re-creates the managers first, as `onLoad` does | medium, not executed | Plugin.ReenableSkipsArguments | Plugin.RepairedReenableLoadsConfigs |
