/**
 * `ConfigWrapper`: reloading and saving one configuration file through its handler, with status codes
 * for the outcome and the source's modification stamp remembered to skip reloads of an unchanged file.
 *
 * The data source, the handler and the configuration extension's hooks are inputs: the source is whether
 * it exists and its stamp, and each hook is what it does to the configuration or whether it throws.
 */
module Wrapper {

  import opened Outcomes
  import opened Config

  const SUCCESS := 0
  const FAIL_IO_LOAD := 1
  const FAIL_DATA_LOAD := 2
  const FAIL_DATA_SAVE := 3
  const FAIL_IO_SAVE := 4
  const SKIPPED := 5

  predicate IsFailedState(state: int) {
    state != SUCCESS && state != SKIPPED
  }

  predicate IsIOError(state: int) {
    state == FAIL_IO_LOAD || state == FAIL_IO_SAVE
  }

  predicate IsDataError(state: int) {
    state == FAIL_DATA_LOAD || state == FAIL_DATA_SAVE
  }

  /** The six codes are distinct; of them, the failures are exactly the four others than `SUCCESS` and
      `SKIPPED`, and each failure is either an I/O or a data error, never both. */
  lemma StatusCodes()
    ensures |{SUCCESS, FAIL_IO_LOAD, FAIL_DATA_LOAD, FAIL_DATA_SAVE, FAIL_IO_SAVE, SKIPPED}| == 6
    ensures forall state :: 0 <= state <= 5 ==> (IsFailedState(state) <==> (IsIOError(state) || IsDataError(state)))
    ensures forall state :: IsIOError(state) ==> !IsDataError(state)
  {
  }

  /** The source: whether it exists and its `lastModified()` stamp. */
  datatype Source = Source(present: bool, lastModified: int)

  /** The collaborators of one run:
      - `handlerLoad`: what `handler.load` reads into an empty configuration, `None` when it throws;
      - `onLoad`: the configuration after `config.onLoad` changed the one it is given, `None` when it throws;
      - `onSave`: the configuration after `config.onSave` wrote into it, `None` when it throws;
      - `handlerSave`: the source's stamp after `handler.save` wrote the configuration, `None` when it throws. */
  datatype Hooks = Hooks(
    handlerLoad: Option<seq<Entry>>,
    onLoad: seq<Entry> -> Option<seq<Entry>>,
    onSave: seq<Entry> -> Option<seq<Entry>>,
    handlerSave: seq<Entry> -> Option<int>)

  /** A run: its status code, the stamp afterwards, the configuration `onLoad` was given (if it ran) and the
      one handed to `handler.save` (if it ran). */
  datatype Run = Run(code: int, stamp: int, givenToOnLoad: Option<seq<Entry>>, givenToSave: Option<seq<Entry>>)

  /** The `onSave` then `handler.save` steps both operations end with. */
  function SaveSteps(config: seq<Entry>, stamp: int, givenToOnLoad: Option<seq<Entry>>, hooks: Hooks): Run {
    match hooks.onSave(config)
    case None => Run(FAIL_DATA_SAVE, stamp, givenToOnLoad, None)
    case Some(saved) =>
      match hooks.handlerSave(saved)
      case None => Run(FAIL_IO_SAVE, stamp, givenToOnLoad, Some(saved))
      case Some(newStamp) => Run(SUCCESS, newStamp, givenToOnLoad, Some(saved))
  }

  /** `reload(wipeAfterLoad)` from stamp `stamp`. */
  function ReloadSpec(stamp: int, wipeAfterLoad: bool, source: Source, hooks: Hooks): Run {
    if source.present && stamp == source.lastModified then Run(SKIPPED, stamp, None, None)
    else if source.present && hooks.handlerLoad.None? then Run(FAIL_IO_LOAD, stamp, None, None)
    else
      var loaded := if source.present then hooks.handlerLoad.value else [];
      var stamp1 := if source.present then source.lastModified else stamp;
      match hooks.onLoad(loaded)
      case None => Run(FAIL_DATA_LOAD, stamp1, Some(loaded), None)
      case Some(afterLoad) => SaveSteps(if wipeAfterLoad then [] else afterLoad, stamp1, Some(loaded), hooks)
  }

  /** `save(force)` from stamp `stamp`, where `modified` is `config.isModified()`. */
  function SaveSpec(stamp: int, force: bool, modified: bool, source: Source, hooks: Hooks): Run {
    if !force && !modified && source.present then Run(SKIPPED, stamp, None, None)
    else SaveSteps([], stamp, None, hooks)
  }

  class ConfigWrapper {

    /** The source's stamp at the last successful load or save. */
    var lastTimeModified: int

    constructor ()
      ensures lastTimeModified == -1
    {
      lastTimeModified := -1;
    }

    method Reload(wipeAfterLoad: bool, source: Source, hooks: Hooks)
      returns (code: int, givenToOnLoad: Option<seq<Entry>>, givenToSave: Option<seq<Entry>>)
      modifies this
      ensures Run(code, lastTimeModified, givenToOnLoad, givenToSave) == ReloadSpec(old(lastTimeModified), wipeAfterLoad, source, hooks)
    {
      var configuration := new Configuration();
      if source.present {
        if lastTimeModified == source.lastModified {
          return SKIPPED, None, None;
        }
        if hooks.handlerLoad.None? {
          return FAIL_IO_LOAD, None, None;
        }
        configuration.entries := hooks.handlerLoad.value;
        lastTimeModified := source.lastModified;
      }
      givenToOnLoad := Some(configuration.entries);
      var afterLoad := hooks.onLoad(configuration.entries);
      if afterLoad.None? {
        return FAIL_DATA_LOAD, givenToOnLoad, None;
      }
      configuration.entries := afterLoad.value;
      if wipeAfterLoad {
        configuration.Clear();
      }
      code, givenToSave := SaveConfiguration(configuration, hooks);
    }

    method Save(force: bool, modified: bool, source: Source, hooks: Hooks) returns (code: int, givenToSave: Option<seq<Entry>>)
      modifies this
      ensures Run(code, lastTimeModified, None, givenToSave) == SaveSpec(old(lastTimeModified), force, modified, source, hooks)
    {
      if !force && !modified && source.present {
        return SKIPPED, None;
      }
      var configuration := new Configuration();
      code, givenToSave := SaveConfiguration(configuration, hooks);
    }

    /** `config.onSave(configuration)`, then `handler.save(configuration, source)`. */
    method SaveConfiguration(configuration: Configuration, hooks: Hooks) returns (code: int, givenToSave: Option<seq<Entry>>)
      modifies this, configuration
      ensures var run := SaveSteps(old(configuration.entries), old(lastTimeModified), None, hooks);
        code == run.code && lastTimeModified == run.stamp && givenToSave == run.givenToSave
    {
      var saved := hooks.onSave(configuration.entries);
      if saved.None? {
        return FAIL_DATA_SAVE, None;
      }
      configuration.entries := saved.value;
      var newStamp := hooks.handlerSave(configuration.entries);
      if newStamp.None? {
        return FAIL_IO_SAVE, Some(configuration.entries);
      }
      lastTimeModified := newStamp.value;
      return SUCCESS, Some(configuration.entries);
    }
  }

  /*
   * Properties
   */

  /** A reload is skipped exactly when the source exists with the remembered stamp; then nothing runs and
      the stamp stays. */
  lemma ReloadSkipped(stamp: int, wipeAfterLoad: bool, source: Source, hooks: Hooks)
    ensures var run := ReloadSpec(stamp, wipeAfterLoad, source, hooks);
      && (run.code == SKIPPED <==> source.present && stamp == source.lastModified)
      && (run.code == SKIPPED ==> run == Run(SKIPPED, stamp, None, None))
  {
  }

  /** The first step that fails decides the code and no later step runs: a failed load runs no hook, a
      failed `onLoad` reaches no save, and success means every step ran. */
  lemma ReloadFirstFailure(stamp: int, wipeAfterLoad: bool, source: Source, hooks: Hooks)
    ensures var run := ReloadSpec(stamp, wipeAfterLoad, source, hooks);
      && (run.code == FAIL_IO_LOAD <==> source.present && stamp != source.lastModified && hooks.handlerLoad.None?)
      && (run.code == FAIL_IO_LOAD ==> run.givenToOnLoad.None? && run.givenToSave.None?)
      && (run.code == FAIL_DATA_LOAD <==> run.givenToOnLoad.Some? && hooks.onLoad(run.givenToOnLoad.value).None?)
      && (run.code == FAIL_DATA_LOAD ==> run.givenToSave.None?)
      && (run.code == FAIL_DATA_SAVE ==> run.givenToOnLoad.Some? && hooks.onLoad(run.givenToOnLoad.value).Some? && run.givenToSave.None?)
      && (run.code == FAIL_IO_SAVE ==> run.givenToSave.Some? && hooks.handlerSave(run.givenToSave.value).None?)
      && (run.code == SUCCESS ==> run.givenToSave.Some? && hooks.handlerSave(run.givenToSave.value) == Some(run.stamp))
      && run.code in {SUCCESS, FAIL_IO_LOAD, FAIL_DATA_LOAD, FAIL_DATA_SAVE, FAIL_IO_SAVE, SKIPPED}
  {
  }

  /** The stamp changes only to the source's stamp after a successful handler load, or to the stamp a
      successful handler save left. */
  lemma ReloadStamp(stamp: int, wipeAfterLoad: bool, source: Source, hooks: Hooks)
    ensures var run := ReloadSpec(stamp, wipeAfterLoad, source, hooks);
      run.stamp != stamp ==>
        (source.present && hooks.handlerLoad.Some? && run.stamp == source.lastModified) ||
        (run.code == SUCCESS && hooks.handlerSave(run.givenToSave.value) == Some(run.stamp))
  {
  }

  /** Without a source nothing is loaded: `onLoad` gets an empty configuration. With a source, it gets what
      the handler read. `onSave` then gets the configuration as `onLoad` left it, or an empty one after a
      wipe. */
  lemma ReloadInputs(stamp: int, wipeAfterLoad: bool, source: Source, hooks: Hooks)
    ensures var run := ReloadSpec(stamp, wipeAfterLoad, source, hooks);
      && (!source.present ==> run.givenToOnLoad == Some([]))
      && (source.present && run.givenToOnLoad.Some? ==> run.givenToOnLoad == hooks.handlerLoad)
      && (run.givenToSave.Some? ==>
            run.givenToOnLoad.Some? && hooks.onLoad(run.givenToOnLoad.value).Some? &&
            hooks.onSave(if wipeAfterLoad then [] else hooks.onLoad(run.givenToOnLoad.value).value) == run.givenToSave)
  {
  }

  /** A save is skipped exactly when it is not forced, the configuration is unmodified and the source exists;
      otherwise `onSave` starts from an empty configuration. */
  lemma SaveSkipped(stamp: int, force: bool, modified: bool, source: Source, hooks: Hooks)
    ensures var run := SaveSpec(stamp, force, modified, source, hooks);
      && (run.code == SKIPPED <==> !force && !modified && source.present)
      && (run.code == SKIPPED ==> run.stamp == stamp && run.givenToSave.None?)
      && (run.givenToSave.Some? ==> hooks.onSave([]) == run.givenToSave)
      && (run.stamp != stamp ==> run.code == SUCCESS)
  {
  }
}
