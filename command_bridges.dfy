// The two bridges between the server's command system and the command
// manager: the injectable bridge registers one root command whose first
// argument names the sub-command; the redirect bridge takes the command name
// from the typed label itself.

module CommandBridge {

  import opened Outcomes
  import opened Text

  predicate Distinct(xs: seq<string>) {
    forall i, j :: 0 <= i < j < |xs| ==> xs[i] != xs[j]
  }

  /** `CommandDefinition.Builder`: collects a command's aliases, prefix and description. */
  class Builder {

    const name: string
    var aliases: seq<string>
    var description: Option<string>
    var prefix: Option<string>

    predicate Valid()
      reads this
    {
      Distinct(aliases)
    }

    /** `CommandDefinition.of(name)`. */
    constructor (name: string)
      ensures this.name == name && aliases == [] && description == None && prefix == None
      ensures Valid()
    {
      this.name := name;
      aliases := [];
      description := None;
      prefix := None;
    }

    method Prefix(prefix: Option<string>)
      modifies this
      ensures this.prefix == prefix
      ensures aliases == old(aliases) && description == old(description)
    {
      this.prefix := prefix;
    }

    method Description(description: Option<string>)
      modifies this
      ensures this.description == description
      ensures aliases == old(aliases) && prefix == old(prefix)
    {
      this.description := description;
    }

    /** `alias(alias)`: a new alias is appended, a known one ignored, so the aliases stay distinct in first-insertion order. */
    method Alias(alias: string)
      requires Valid()
      modifies this
      ensures Valid()
      ensures alias in aliases
      ensures alias in old(aliases) ==> aliases == old(aliases)
      ensures alias !in old(aliases) ==> aliases == old(aliases) + [alias]
      ensures prefix == old(prefix) && description == old(description)
    {
      if alias in aliases {
        return;
      }
      aliases := aliases + [alias];
    }

    /**
     * `build(plugin)`: a missing or blank prefix falls back to the plugin's
     * name, and the prefix is lower-cased. The definition's alias list is a
     * view of this builder's list, not a copy.
     */
    method Build(pluginName: string) returns (definition: CommandDefinition)
      ensures fresh(definition)
      ensures definition.prefix == ToLowerAscii(PrefixOrPlugin(prefix, pluginName))
      ensures definition.name == name && definition.description == description
      ensures definition.source == this
    {
      definition := new CommandDefinition(ToLowerAscii(PrefixOrPlugin(prefix, pluginName)), name, this, description);
    }
  }

  /** The prefix `build` uses before lower-casing it. */
  function PrefixOrPlugin(prefix: Option<string>, pluginName: string): (r: string)
    ensures prefix.Some? && !IsBlank(prefix.value) ==> r == prefix.value
    ensures (prefix.None? || IsBlank(prefix.value)) ==> r == pluginName
  {
    if prefix.None? || IsBlank(prefix.value) then pluginName else prefix.value
  }

  /** `CommandDefinition`: its aliases are read through the builder it was built by. */
  class CommandDefinition {

    const prefix: string
    const name: string
    const source: Builder
    const description: Option<string>

    constructor (prefix: string, name: string, source: Builder, description: Option<string>)
      ensures this.prefix == prefix && this.name == name && this.source == source && this.description == description
    {
      this.prefix := prefix;
      this.name := name;
      this.source := source;
      this.description := description;
    }

    /** `aliases()`: an unmodifiable view of the builder's list. */
    function Aliases(): (r: seq<string>)
      reads source
      ensures r == source.aliases
    {
      source.aliases
    }
  }

  /** An alias added after `build` shows up in the definition already built. */
  method AliasAfterBuild(builder: Builder, pluginName: string, alias: string) returns (definition: CommandDefinition)
    requires builder.Valid()
    modifies builder
    ensures alias in definition.Aliases()
    ensures definition.Aliases() == builder.aliases
    ensures alias !in old(builder.aliases) ==> definition.Aliases() == old(builder.aliases) + [alias]
  {
    definition := builder.Build(pluginName);
    builder.Alias(alias);
  }

  /** Every name `uninject` removes from the command map: each alias and the name, plain and prefixed. */
  function RemovalKeys(prefix: string, names: seq<string>): (r: seq<string>)
    ensures |r| == 2 * |names|
    ensures forall i :: 0 <= i < |names| ==> r[2 * i] == names[i] && r[2 * i + 1] == prefix + [':'] + names[i]
  {
    if names == [] then []
    else RemovalKeys(prefix, names[..|names| - 1]) + [names[|names| - 1], prefix + [':'] + names[|names| - 1]]
  }

  /** `getCommandName` of the injectable bridge: the first argument names the sub-command. */
  function InjectableCommandName(fallbackCommand: string, args: seq<string>, isForSuggestions: bool): (r: string)
    ensures args != [] ==> r == args[0]
    ensures args == [] && isForSuggestions ==> r == ""
    ensures args == [] && !isForSuggestions ==> r == fallbackCommand
  {
    if args == [] then (if isForSuggestions then "" else fallbackCommand) else args[0]
  }

  /** `getCommandArguments` of the injectable bridge: the arguments after the sub-command's name. */
  function InjectableCommandArguments(args: seq<string>): (r: seq<string>)
    ensures |args| <= 1 ==> r == []
    ensures |args| > 1 ==> |r| == |args| - 1 && forall i :: 0 <= i < |r| ==> r[i] == args[i + 1]
  {
    if |args| <= 1 then [] else args[1..]
  }

  /** With at least one argument, the name and the remaining arguments are the arguments again. */
  lemma InjectableSplitsArguments(fallbackCommand: string, args: seq<string>, isForSuggestions: bool)
    requires args != []
    ensures [InjectableCommandName(fallbackCommand, args, isForSuggestions)] + InjectableCommandArguments(args) == args
  {
    var r := [InjectableCommandName(fallbackCommand, args, isForSuggestions)] + InjectableCommandArguments(args);
    assert |r| == |args|;
    forall i | 0 <= i < |args|
      ensures r[i] == args[i]
    {
    }
  }

  /** `BukkitCommandInjectableBridge`: its registration with the server is recorded, not performed. */
  class InjectableBridge {

    const definition: CommandDefinition
    var fallbackCommand: string
    var injected: bool
    /** How often `inject` went through to register the command. */
    var registrations: nat
    /** The command-map keys `uninject` removed, in order. */
    var removed: seq<string>

    constructor (definition: CommandDefinition)
      ensures this.definition == definition
      ensures fallbackCommand == "help" && !injected && registrations == 0 && removed == []
    {
      this.definition := definition;
      fallbackCommand := "help";
      injected := false;
      registrations := 0;
      removed := [];
    }

    method SetFallbackCommand(fallbackCommand: string)
      modifies this
      ensures this.fallbackCommand == fallbackCommand
      ensures injected == old(injected) && registrations == old(registrations) && removed == old(removed)
    {
      this.fallbackCommand := fallbackCommand;
    }

    function CommandName(args: seq<string>, isForSuggestions: bool): (r: string)
      reads this
      ensures r == InjectableCommandName(fallbackCommand, args, isForSuggestions)
    {
      InjectableCommandName(fallbackCommand, args, isForSuggestions)
    }

    /** `inject()` as written: nothing sets `injected`, so the guard never stops a second registration. */
    method Inject()
      modifies this
      ensures injected == old(injected)
      ensures !old(injected) ==> registrations == old(registrations) + 1
      ensures old(injected) ==> registrations == old(registrations)
      ensures fallbackCommand == old(fallbackCommand) && removed == old(removed)
    {
      if injected {
        return;
      }
      registrations := registrations + 1;
    }

    /** `uninject()` as written: with `injected` never set, it returns before removing anything. */
    method Uninject()
      modifies this
      ensures injected == old(injected)
      ensures !old(injected) ==> removed == old(removed)
      ensures old(injected) ==>
        removed == old(removed) + RemovalKeys(definition.prefix, definition.Aliases() + [definition.name])
      ensures fallbackCommand == old(fallbackCommand) && registrations == old(registrations)
    {
      if !injected {
        return;
      }
      removed := removed + RemovalKeys(definition.prefix, definition.Aliases() + [definition.name]);
    }

    /** The evidently intended `inject()`: registers once and remembers it. */
    method InjectOnce()
      modifies this
      ensures injected
      ensures !old(injected) ==> registrations == old(registrations) + 1
      ensures old(injected) ==> registrations == old(registrations)
      ensures fallbackCommand == old(fallbackCommand) && removed == old(removed)
    {
      if injected {
        return;
      }
      registrations := registrations + 1;
      injected := true;
    }

    /** The evidently intended `uninject()`: removes what an earlier injection registered and forgets it. */
    method UninjectOnce()
      modifies this
      ensures !injected
      ensures !old(injected) ==> removed == old(removed)
      ensures old(injected) ==>
        removed == old(removed) + RemovalKeys(definition.prefix, definition.Aliases() + [definition.name])
      ensures fallbackCommand == old(fallbackCommand) && registrations == old(registrations)
    {
      if !injected {
        return;
      }
      removed := removed + RemovalKeys(definition.prefix, definition.Aliases() + [definition.name]);
      injected := false;
    }
  }

  /** As written, injecting twice registers twice and uninjecting removes nothing. */
  method InjectTwiceAsWritten(definition: CommandDefinition) returns (bridge: InjectableBridge)
    ensures bridge.registrations == 2 && bridge.removed == [] && !bridge.injected
  {
    bridge := new InjectableBridge(definition);
    bridge.Inject();
    bridge.Inject();
    bridge.Uninject();
  }

  /** With the guard kept, injecting twice registers once and uninjecting removes the command's keys. */
  method InjectTwiceRepaired(definition: CommandDefinition) returns (bridge: InjectableBridge)
    ensures bridge.registrations == 1 && !bridge.injected
    ensures bridge.removed == RemovalKeys(definition.prefix, definition.Aliases() + [definition.name])
  {
    bridge := new InjectableBridge(definition);
    bridge.InjectOnce();
    bridge.InjectOnce();
    bridge.UninjectOnce();
  }

  /** How many `'/'` the label starts with. */
  function LeadingSlashes(typed: string): (n: nat)
    ensures n <= |typed|
    ensures forall i :: 0 <= i < n ==> typed[i] == '/'
    ensures n < |typed| ==> typed[n] != '/'
  {
    if typed != [] && typed[0] == '/' then 1 + LeadingSlashes(typed[1..]) else 0
  }

  /** A run of exactly `k` slashes at the front is what `LeadingSlashes` counts. */
  lemma {:induction false} LeadingSlashesExact(s: string, k: nat)
    requires k <= |s|
    requires forall i :: 0 <= i < k ==> s[i] == '/'
    requires k < |s| ==> s[k] != '/'
    ensures LeadingSlashes(s) == k
  {
    if k > 0 {
      LeadingSlashesExact(s[1..], k - 1);
    }
  }

  /** The command name the redirect bridge hands on for a label. */
  function Redirected(prefix: string, typed: string): string {
    var rest := typed[LeadingSlashes(typed)..];
    if StartsWith(rest, prefix) then rest[|prefix|..] else rest
  }

  /** `BukkitCommandRedirectBridge`. */
  class RedirectBridge {

    const prefix: string

    /** The stored prefix is the given one followed by `':'`. */
    constructor (prefix: string)
      ensures this.prefix == prefix + [':']
    {
      this.prefix := prefix + [':'];
    }

    /** `getCommandName`: every leading `'/'` is stripped, then one leading prefix. */
    method CommandName(typed: string, args: seq<string>, isForSuggestions: bool) returns (name: string)
      ensures name == Redirected(prefix, typed)
    {
      var rest := typed;
      while StartsWith(rest, "/")
        invariant |rest| <= |typed| && rest == typed[|typed| - |rest|..]
        invariant forall i :: 0 <= i < |typed| - |rest| ==> typed[i] == '/'
        decreases |rest|
      {
        rest := rest[1..];
      }
      LeadingSlashesExact(typed, |typed| - |rest|);
      if StartsWith(rest, prefix) {
        rest := rest[|prefix|..];
      }
      return rest;
    }

    /** `getCommandArguments`: the arguments are handed on as they are, for suggestions or not. */
    function CommandArguments(args: seq<string>, isForSuggestions: bool): (r: seq<string>)
      ensures r == args
    {
      args
    }
  }

  /** Extra leading slashes do not change the command name. */
  lemma SlashesIgnored(prefix: string, typed: string)
    ensures Redirected(prefix, "/" + typed) == Redirected(prefix, typed)
  {
    assert ("/" + typed)[1..] == typed;
  }

  /** A prefixed label names what follows the prefix, however many slashes lead it. */
  lemma PrefixRemoved(given: string, name: string, slashes: nat)
    requires given == [] || given[0] != '/'
    ensures Redirected(given + [':'], seq(slashes, _ => '/') + given + [':'] + name) == name
  {
    var prefix := given + [':'];
    var typed := seq(slashes, _ => '/') + given + [':'] + name;
    assert prefix[0] != '/';
    assert typed == seq(slashes, _ => '/') + (prefix + name);
    assert typed[slashes] == prefix[0];
    LeadingSlashesExact(typed, slashes);
    assert typed[slashes..] == prefix + name;
  }

  /** A label without the prefix keeps everything after its slashes. */
  lemma OtherLabelKept(prefix: string, typed: string)
    requires !StartsWith(typed[LeadingSlashes(typed)..], prefix)
    ensures Redirected(prefix, typed) == typed[LeadingSlashes(typed)..]
  {
  }
}
