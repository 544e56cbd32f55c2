// The plugin base's lifecycle: the guarded `state` machine driven by the
// server's load/enable/disable calls, the core setup chain run on enable, and
// the condition map that is filled by the plugin and then locked.

module Plugin {

  import ExtensionPool

  /** The server calls that drive the lifecycle; `Ready` is the server-loaded event. */
  datatype Event = Load | Enable | Ready | Disable

  /**
   * The lifecycle `state`: 0 constructed, 1 loaded, 2 enabled, 3 ready,
   * 4 disabled. Each call acts only in the states it accepts; in any other
   * state it returns at once.
   */
  function Transition(s: int, e: Event): int {
    match e
    case Load => if s == 0 || s == 4 then 1 else s
    case Enable => if s == 1 then 2 else if s == 4 then 3 else s
    case Ready => if s == 2 then 3 else s
    case Disable => if s == 2 || s == 3 then 4 else s
  }

  /** The states in which each call acts. */
  predicate Accepts(s: int, e: Event) {
    match e
    case Load => s == 0 || s == 4
    case Enable => s == 1 || s == 4
    case Ready => s == 2
    case Disable => s == 2 || s == 3
  }

  /** The state after a run of calls. */
  function Run(s: int, events: seq<Event>): int {
    if events == [] then s else Transition(Run(s, events[..|events| - 1]), events[|events| - 1])
  }

  /**
   * What a lifecycle call has done, in order: the plugin's own hooks are
   * recorded when they are called (whatever they then throw is caught and
   * logged), the core steps when they complete.
   */
  datatype Step =
    | CoreLoaded | PluginLoad
    | ConditionMapLocked | MessagesRegistered | ArgumentsRegistered | ConfigsLoaded
    | PluginEnable | ListenersRegistered
    | CoreReady | PluginReady
    | PluginDisable | CoreDisabled

  /** One call the plugin's `onConditionMapSetup` makes on the map it is handed. */
  datatype ConditionWrite = Put(property: string, value: bool) | Remove(property: string)

  /**
   * What the server and the plugin subclass do, as far as the lifecycle
   * depends on it: whether the jar's file system opens, the writes of
   * `onConditionMapSetup` and whether it then throws, whether
   * `onArgumentSetup` throws, and whether any message extension registers a
   * source (only then does `registerMessages` touch the message manager; an
   * enum that is not an `IMessageDefinition` is skipped and does not count).
   */
  datatype Host = Host(
    jarRootResolves: bool,
    conditionWrites: seq<ConditionWrite>,
    conditionSetupThrows: bool,
    argumentSetupThrows: bool,
    messageExtensions: bool)

  function Apply(values: map<string, bool>, w: ConditionWrite): map<string, bool> {
    match w
    case Put(p, v) => values[p := v]
    case Remove(p) => values - {p}
  }

  /** The condition values after the plugin's writes on an unlocked map. */
  function Written(values: map<string, bool>, writes: seq<ConditionWrite>): map<string, bool> {
    if writes == [] then values else Apply(Written(values, writes[..|writes| - 1]), writes[|writes| - 1])
  }

  /**
   * The core steps `onCoreEnable` completes, given whether the message
   * manager and the argument registry exist. The first exception ends the
   * chain: a throwing condition setup, a missing message manager when a
   * message extension exists, a missing argument registry, a throwing
   * argument setup.
   */
  function CoreEnableSteps(host: Host, messageManager: bool, argumentRegistry: bool): seq<Step> {
    if host.conditionSetupThrows then []
    else if host.messageExtensions && !messageManager then [ConditionMapLocked]
    else if !argumentRegistry then [ConditionMapLocked, MessagesRegistered]
    else if host.argumentSetupThrows then [ConditionMapLocked, MessagesRegistered, ArgumentsRegistered]
    else [ConditionMapLocked, MessagesRegistered, ArgumentsRegistered, ConfigsLoaded]
  }

  /** Every step `onCoreEnable` can complete, in its order. */
  const FullCoreEnable: seq<Step> := [ConditionMapLocked, MessagesRegistered, ArgumentsRegistered, ConfigsLoaded]

  class BasePlugin {

    var state: int
    var jarRoot: bool
    var messageManager: bool
    var argumentRegistry: bool
    var conditionMap: ExtensionPool.ConditionMap?
    var configManager: bool
    var pagedInventoryRegistry: bool
    var trace: seq<Step>

    constructor ()
      ensures state == 0 && trace == []
      ensures !jarRoot && !messageManager && !argumentRegistry && conditionMap == null
      ensures !configManager && !pagedInventoryRegistry
    {
      state := 0;
      jarRoot := false;
      messageManager := false;
      argumentRegistry := false;
      conditionMap := null;
      configManager := false;
      pagedInventoryRegistry := false;
      trace := [];
    }

    /**
     * `onLoad`. The jar root is resolved once; when that fails an
     * `IllegalStateException` leaves the call (`thrown`) before the state
     * moves. Otherwise the core creates both managers and the plugin's hook
     * is called.
     */
    method OnLoad(host: Host) returns (thrown: bool)
      modifies this
      ensures !Accepts(old(state), Load) ==> !thrown && state == old(state) && trace == old(trace)
      ensures !Accepts(old(state), Load) ==>
        jarRoot == old(jarRoot) && messageManager == old(messageManager) && argumentRegistry == old(argumentRegistry)
      ensures Accepts(old(state), Load) ==> (thrown <==> !old(jarRoot) && !host.jarRootResolves)
      ensures thrown ==> state == old(state) && trace == old(trace) && !jarRoot
      ensures thrown ==> messageManager == old(messageManager) && argumentRegistry == old(argumentRegistry)
      ensures Accepts(old(state), Load) && !thrown ==> state == Transition(old(state), Load) && jarRoot
      ensures Accepts(old(state), Load) && !thrown ==>
        messageManager && argumentRegistry && trace == old(trace) + [CoreLoaded, PluginLoad]
      ensures conditionMap == old(conditionMap) && configManager == old(configManager)
      ensures pagedInventoryRegistry == old(pagedInventoryRegistry)
    {
      if state != 0 && state != 4 {
        return false;
      }
      if !jarRoot {
        if !host.jarRootResolves {
          return true;
        }
        jarRoot := true;
      }
      state := 1;
      messageManager := true;
      argumentRegistry := true;
      trace := trace + [CoreLoaded];
      trace := trace + [PluginLoad];
      return false;
    }

    /** `setupConditionMap`: a fresh map, the plugin's writes, then the lock unless the hook threw. */
    method SetupConditionMap(host: Host)
      modifies this
      ensures conditionMap != null && fresh(conditionMap)
      ensures conditionMap.values == Written(map[], host.conditionWrites)
      ensures conditionMap.locked <==> !host.conditionSetupThrows
      ensures state == old(state) && trace == old(trace) && jarRoot == old(jarRoot)
      ensures messageManager == old(messageManager) && argumentRegistry == old(argumentRegistry)
      ensures configManager == old(configManager) && pagedInventoryRegistry == old(pagedInventoryRegistry)
    {
      var map' := new ExtensionPool.ConditionMap();
      conditionMap := map';
      var writes := host.conditionWrites;
      for i := 0 to |writes|
        modifies map'
        invariant fresh(map')
        invariant !map'.locked
        invariant map'.values == Written(map[], writes[..i])
      {
        assert writes[..i + 1][..i] == writes[..i];
        match writes[i] {
          case Put(p, v) => map'.SetValue(p, v);
          case Remove(p) => map'.Unset(p);
        }
      }
      assert writes[..|writes|] == writes;
      if !host.conditionSetupThrows {
        map'.Lock();
      }
    }

    /** `onCoreEnable`: the setup chain, ended by its first exception. */
    method OnCoreEnable(host: Host)
      modifies this
      ensures trace == old(trace) + CoreEnableSteps(host, old(messageManager), old(argumentRegistry))
      ensures conditionMap != null && fresh(conditionMap)
      ensures conditionMap.values == Written(map[], host.conditionWrites)
      ensures conditionMap.locked <==> !host.conditionSetupThrows
      ensures configManager <==> old(configManager) || ConfigsLoaded in CoreEnableSteps(host, old(messageManager), old(argumentRegistry))
      ensures state == old(state) && jarRoot == old(jarRoot)
      ensures messageManager == old(messageManager) && argumentRegistry == old(argumentRegistry)
      ensures pagedInventoryRegistry == old(pagedInventoryRegistry)
    {
      SetupConditionMap(host);
      if host.conditionSetupThrows {
        return;
      }
      trace := trace + [ConditionMapLocked];
      if host.messageExtensions && !messageManager {
        return;
      }
      trace := trace + [MessagesRegistered];
      if !argumentRegistry {
        return;
      }
      trace := trace + [ArgumentsRegistered];
      if host.argumentSetupThrows {
        return;
      }
      configManager := true;
      trace := trace + [ConfigsLoaded];
    }

    /** `onEnable`: enables the core and the plugin, then readies at once when re-enabled after a disable. */
    method OnEnable(host: Host)
      modifies this
      ensures state == Transition(old(state), Enable)
      ensures !Accepts(old(state), Enable) ==> trace == old(trace) && conditionMap == old(conditionMap)
      ensures !Accepts(old(state), Enable) ==>
        configManager == old(configManager) && pagedInventoryRegistry == old(pagedInventoryRegistry)
      ensures Accepts(old(state), Enable) ==>
        trace == old(trace) + CoreEnableSteps(host, old(messageManager), old(argumentRegistry))
          + [PluginEnable, ListenersRegistered] + (if old(state) == 4 then [CoreReady, PluginReady] else [])
      ensures Accepts(old(state), Enable) ==> conditionMap != null && fresh(conditionMap)
      ensures Accepts(old(state), Enable) ==> conditionMap.values == Written(map[], host.conditionWrites)
      ensures Accepts(old(state), Enable) ==> (conditionMap.locked <==> !host.conditionSetupThrows)
      ensures Accepts(old(state), Enable) ==>
        (configManager <==> old(configManager) || ConfigsLoaded in CoreEnableSteps(host, old(messageManager), old(argumentRegistry)))
      ensures Accepts(old(state), Enable) ==> (pagedInventoryRegistry <==> old(pagedInventoryRegistry) || old(state) == 4)
      ensures jarRoot == old(jarRoot) && messageManager == old(messageManager) && argumentRegistry == old(argumentRegistry)
    {
      if state != 1 && state != 4 {
        return;
      }
      var ready := state == 4;
      state := 2;
      OnCoreEnable(host);
      trace := trace + [PluginEnable];
      trace := trace + [ListenersRegistered];
      if ready {
        OnReady();
      }
    }

    /** `onReady`: the paged inventory registry is created and the plugin's hook is called. */
    method OnReady()
      modifies this
      ensures state == Transition(old(state), Ready)
      ensures !Accepts(old(state), Ready) ==> trace == old(trace) && pagedInventoryRegistry == old(pagedInventoryRegistry)
      ensures Accepts(old(state), Ready) ==> trace == old(trace) + [CoreReady, PluginReady] && pagedInventoryRegistry
      ensures jarRoot == old(jarRoot) && messageManager == old(messageManager) && argumentRegistry == old(argumentRegistry)
      ensures conditionMap == old(conditionMap) && configManager == old(configManager)
    {
      if state != 2 {
        return;
      }
      state := 3;
      pagedInventoryRegistry := true;
      trace := trace + [CoreReady];
      trace := trace + [PluginReady];
    }

    /** `onDisable`: the plugin's hook, then `clearFields` drops both managers. */
    method OnDisable()
      modifies this
      ensures state == Transition(old(state), Disable)
      ensures !Accepts(old(state), Disable) ==> trace == old(trace)
      ensures !Accepts(old(state), Disable) ==>
        messageManager == old(messageManager) && argumentRegistry == old(argumentRegistry)
      ensures Accepts(old(state), Disable) ==>
        trace == old(trace) + [PluginDisable, CoreDisabled] && !messageManager && !argumentRegistry
      ensures jarRoot == old(jarRoot) && conditionMap == old(conditionMap) && configManager == old(configManager)
      ensures pagedInventoryRegistry == old(pagedInventoryRegistry)
    {
      if state != 2 && state != 3 {
        return;
      }
      state := 4;
      trace := trace + [PluginDisable];
      messageManager := false;
      argumentRegistry := false;
      trace := trace + [CoreDisabled];
    }
  }

  /** A call changes the state exactly when it is made in a state it accepts. */
  lemma GuardedTransitions(s: int, e: Event)
    ensures Transition(s, e) != s <==> Accepts(s, e)
    ensures Accepts(s, e) ==> Transition(s, e) in {1, 2, 3, 4}
  {
  }

  /** From the constructed state, every run stays within the five states. */
  lemma {:induction false} RunInRange(events: seq<Event>)
    ensures 0 <= Run(0, events) <= 4
  {
    if events != [] {
      RunInRange(events[..|events| - 1]);
    }
  }

  /** Nothing leaves the constructed state but a load. */
  lemma {:induction false} LeavingZeroNeedsLoad(events: seq<Event>)
    ensures Load !in events ==> Run(0, events) == 0
  {
    if events != [] {
      var init := events[..|events| - 1];
      assert Load !in events ==> Load !in init;
      LeavingZeroNeedsLoad(init);
    }
  }

  /** From the constructed state, being enabled (or later) needs a load followed by an enable. */
  lemma {:induction false} EnableNeedsLoad(events: seq<Event>)
    ensures Run(0, events) >= 2 ==>
      exists i, j :: 0 <= i < j < |events| && events[i] == Load && events[j] == Enable
  {
    if events != [] {
      var init := events[..|events| - 1];
      EnableNeedsLoad(init);
      RunInRange(init);
      if Run(0, init) >= 2 {
        var i, j :| 0 <= i < j < |init| && init[i] == Load && init[j] == Enable;
        assert events[i] == Load && events[j] == Enable;
      } else if Run(0, events) >= 2 {
        assert Run(0, init) == 1 && events[|events| - 1] == Enable;
        LeavingZeroNeedsLoad(init);
        var i :| 0 <= i < |init| && init[i] == Load;
        assert events[i] == Load;
      }
    }
  }

  /** From the constructed state, being ready or disabled needs, after a load and an enable, a server-ready or
      a disable (state 3 is entered from 2 by a server-ready or from 4 by a re-enable, and state 4 only by a
      disable). */
  lemma {:induction false} StartOrder(events: seq<Event>)
    ensures Run(0, events) >= 3 ==>
      exists i, j, k :: 0 <= i < j < k < |events| && events[i] == Load && events[j] == Enable && events[k] in {Ready, Disable}
  {
    if events != [] {
      var init := events[..|events| - 1];
      StartOrder(init);
      RunInRange(init);
      if Run(0, init) >= 3 {
        var i, j, k :| 0 <= i < j < k < |init| && init[i] == Load && init[j] == Enable && init[k] in {Ready, Disable};
        assert events[i] == Load && events[j] == Enable && events[k] in {Ready, Disable};
      } else if Run(0, events) >= 3 {
        assert Run(0, init) == 2 && events[|events| - 1] in {Ready, Disable};
        EnableNeedsLoad(init);
        var i, j :| 0 <= i < j < |init| && init[i] == Load && init[j] == Enable;
        assert events[i] == Load && events[j] == Enable;
      }
    }
  }

  /** The first load, enable and server-ready walk the states in order. */
  lemma FirstStart()
    ensures Run(0, [Load]) == 1
    ensures Run(0, [Load, Enable]) == 2
    ensures Run(0, [Load, Enable, Ready]) == 3
    ensures Run(0, [Load, Enable, Ready, Disable]) == 4
  {
    assert [Load, Enable][..1] == [Load];
    assert [Load, Enable, Ready][..2] == [Load, Enable];
    assert [Load, Enable, Ready, Disable][..3] == [Load, Enable, Ready];
  }

  /** The setup chain completes a prefix of its steps, so the condition map is locked before anything else is set up. */
  lemma CoreEnableOrder(host: Host, messageManager: bool, argumentRegistry: bool)
    ensures var steps := CoreEnableSteps(host, messageManager, argumentRegistry);
      |steps| <= |FullCoreEnable| && steps == FullCoreEnable[..|steps|]
    ensures CoreEnableSteps(host, messageManager, argumentRegistry) != []
      <==> !host.conditionSetupThrows
    ensures ConfigsLoaded in CoreEnableSteps(host, messageManager, argumentRegistry) <==>
      (!host.conditionSetupThrows && (messageManager || !host.messageExtensions) && argumentRegistry && !host.argumentSetupThrows)
  {
  }

  /** Writes on an unlocked map: the last write to a property decides it. */
  lemma {:induction false} WrittenLast(values: map<string, bool>, writes: seq<ConditionWrite>, p: string, v: bool)
    ensures Written(values, writes + [Put(p, v)])[p] == v
    ensures p !in Written(values, writes + [Remove(p)])
  {
    assert (writes + [Put(p, v)])[..|writes|] == writes;
    assert (writes + [Remove(p)])[..|writes|] == writes;
  }

  /**
   * After `onDisable` both managers are gone, so a later `onEnable` (which
   * the base accepts in state 4 without a new `onLoad`) stops at the
   * argument registry: argument types and configs are not set up again.
   */
  lemma ReenableSkipsArguments(host: Host)
    ensures ArgumentsRegistered !in CoreEnableSteps(host, false, false)
    ensures ConfigsLoaded !in CoreEnableSteps(host, false, false)
  {
  }

  /** The evidently intended re-enable: `onEnable` re-runs `onCoreLoad` when a manager is missing. */
  function CoreEnableRepaired(host: Host, messageManager: bool, argumentRegistry: bool): seq<Step> {
    (if messageManager && argumentRegistry then [] else [CoreLoaded]) + CoreEnableSteps(host, true, true)
  }

  /** With the repair, a re-enable sets up what a first enable does, whatever was cleared. */
  lemma RepairedReenableLoadsConfigs(host: Host, messageManager: bool, argumentRegistry: bool)
    ensures ConfigsLoaded in CoreEnableRepaired(host, messageManager, argumentRegistry)
      <==> ConfigsLoaded in CoreEnableSteps(host, true, true)
    ensures ConfigsLoaded in CoreEnableRepaired(host, messageManager, argumentRegistry)
      <==> !host.conditionSetupThrows && !host.argumentSetupThrows
  {
  }
}
