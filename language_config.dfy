/**
 * `LanguageConfigHandler`: one message file per language in a directory. Loading reads every `<name>.json`
 * whose name is a valid language name into the configuration `<name>`; saving writes every top-level
 * configuration `K` to `K.json`. The directory listing and the files' parsed contents are inputs.
 */
module LanguageConfig {

  import opened Outcomes
  import opened Text
  import opened Config
  import opened JsonConfig
  import opened MessageConfig

  /** `[a-z][a-z\-]*`, matched against the whole name. */
  predicate ValidLangName(s: string) {
    |s| >= 1 && 'a' <= s[0] <= 'z' && forall i :: 1 <= i < |s| ==> 'a' <= s[i] <= 'z' || s[i] == '-'
  }

  predicate HasSuffix(s: string, suffix: string) {
    |suffix| <= |s| && s[|s| - |suffix|..] == suffix
  }

  /** `lastIndexOf(c)`, `-1` when `c` does not occur. */
  function LastIndexOf(s: string, c: char): (r: int)
    ensures -1 <= r < |s|
    ensures r >= 0 ==> s[r] == c
    ensures forall k :: r < k < |s| ==> s[k] != c
  {
    if s == [] then -1
    else if s[|s| - 1] == c then |s| - 1
    else LastIndexOf(s[..|s| - 1], c)
  }

  /** `extractName` as written: `substring(0, lastIndexOf('.') + 1)`, which keeps the dot. */
  function ExtractNameAsWritten(name: string): string {
    name[..LastIndexOf(name, '.') + 1]
  }

  /** `extractName` as evidently intended: the name before its last dot. */
  function ExtractName(name: string): string {
    var index := LastIndexOf(name, '.');
    if index < 0 then name else name[..index]
  }

  /** A directory entry: its name, whether it is a regular file, and the parsed JSON it holds. */
  datatype LangFile = LangFile(name: string, isFile: bool, content: Json)

  /** The filter handed to `listFiles`: regular files named `*.json`. */
  predicate Listed(f: LangFile) {
    f.isFile && HasSuffix(f.name, ".json")
  }

  function Selected(files: seq<LangFile>): (r: seq<LangFile>)
    ensures |r| <= |files|
    ensures forall i :: 0 <= i < |r| ==> Listed(r[i])
    decreases |files|
  {
    if files == [] then []
    else Selected(files[..|files| - 1]) + (if Listed(files[|files| - 1]) then [files[|files| - 1]] else [])
  }

  /** One file: skipped unless its extracted name is valid; otherwise the message handler loads it into
      `getConfiguration(name, true)`, which is the step the object walk takes for a member `name`, and throws
      when its root is not an object. */
  function LoadFile(f: LangFile, es: seq<Entry>, extract: string -> string): Result<seq<Entry>, Failure> {
    var langName := extract(f.name);
    if !ValidLangName(langName) then Ok(es)
    else if !f.content.JObject? then Err(IllegalState)
    else LoadMember(Member(langName, f.content), es, ArrayToText, PrimitiveToText)
  }

  function LoadFiles(files: seq<LangFile>, es: seq<Entry>, extract: string -> string): Result<seq<Entry>, Failure>
    decreases |files|
  {
    if files == [] then Ok(es)
    else match LoadFiles(files[..|files| - 1], es, extract)
      case Err(e) => Err(e)
      case Ok(acc) => LoadFile(files[|files| - 1], acc, extract)
  }

  /** `load`, with `listFiles` giving `None` (Java `null`) when the directory cannot be listed. */
  function LanguageLoadWith(es: seq<Entry>, listing: Option<seq<LangFile>>, extract: string -> string): Result<seq<Entry>, Failure> {
    match listing
    case None => Ok(es)
    case Some(files) => LoadFiles(Selected(files), es, extract)
  }

  function LanguageLoadAsWritten(es: seq<Entry>, listing: Option<seq<LangFile>>): Result<seq<Entry>, Failure> {
    LanguageLoadWith(es, listing, ExtractNameAsWritten)
  }

  function LanguageLoad(es: seq<Entry>, listing: Option<seq<LangFile>>): Result<seq<Entry>, Failure> {
    LanguageLoadWith(es, listing, ExtractName)
  }

  /** `load`, with the corrected name extraction. */
  method LoadLanguages(configuration: Configuration, listing: Option<seq<LangFile>>) returns (failure: Option<Failure>)
    modifies configuration
    ensures LanguageLoad(old(configuration.entries), listing).Ok? ==>
              failure.None? && configuration.entries == LanguageLoad(old(configuration.entries), listing).value
    ensures LanguageLoad(old(configuration.entries), listing).Err? ==>
              failure == Some(LanguageLoad(old(configuration.entries), listing).error)
  {
    if listing.None? {
      return None;
    }
    var files := Selected(listing.value);
    if |files| == 0 {
      return None;
    }
    var start := configuration.entries;
    var i := 0;
    while i < |files|
      invariant 0 <= i <= |files|
      invariant LoadFiles(files[..i], start, ExtractName) == Ok(configuration.entries)
    {
      assert files[..i + 1][..i] == files[..i] && files[..i + 1][i] == files[i];
      failure := LoadFileInto(files[i], configuration);
      if failure.Some? {
        LoadFilesErrKept(files, i + 1, start, ExtractName);
        return;
      }
      i := i + 1;
    }
    assert files[..|files|] == files;
    return None;
  }

  /** One pass of the loop in `load`: the file's messages go into the configuration of its language. */
  method LoadFileInto(f: LangFile, configuration: Configuration) returns (failure: Option<Failure>)
    modifies configuration
    ensures LoadFile(f, old(configuration.entries), ExtractName).Ok? ==>
              failure.None? && configuration.entries == LoadFile(f, old(configuration.entries), ExtractName).value
    ensures LoadFile(f, old(configuration.entries), ExtractName).Err? ==>
              failure == Some(LoadFile(f, old(configuration.entries), ExtractName).error)
  {
    var langName := ExtractName(f.name);
    if !ValidLangName(langName) {
      return None;
    }
    var before := configuration.entries;
    var found := configuration.GetConfiguration(langName, true);
    GetConfigurationNeverNull(before, langName);
    if !f.content.JObject? {
      return Some(IllegalState);
    }
    var child := new Configuration();
    child.entries := found.value;
    failure := LoadToConfig(f.content.members, child, ArrayToText, PrimitiveToText);
    if failure.Some? {
      return;
    }
    configuration.entries := ReplaceAt(configuration.entries, Split(langName, '.'), child.entries);
  }

  lemma {:induction false} LoadFilesErrKept(files: seq<LangFile>, n: nat, es: seq<Entry>, extract: string -> string)
    requires n <= |files| && LoadFiles(files[..n], es, extract).Err?
    ensures LoadFiles(files, es, extract) == LoadFiles(files[..n], es, extract)
    decreases |files| - n
  {
    if n < |files| {
      assert files[..n + 1][..n] == files[..n];
      LoadFilesErrKept(files, n + 1, es, extract);
    } else {
      assert files[..n] == files;
    }
  }

  /** A file the save writes. */
  datatype Written = Written(file: string, content: Json)

  /** What a save wrote, and whether it stopped on a null dereference: `getConfiguration(K)` is `null`
      for a top-level value that is not a configuration, and the message handler then fails on it. */
  datatype SaveRun = SaveRun(written: seq<Written>, failed: bool)

  /** `save`: the top-level keys in order, each configuration `K` written to `K.json`. */
  function LanguageSave(es: seq<Entry>): SaveRun
    decreases |es|
  {
    if es == [] then SaveRun([], false)
    else
      var run := LanguageSave(es[..|es| - 1]);
      var e := es[|es| - 1];
      if run.failed then run
      else if e.value.Section? then SaveRun(run.written + [Written(e.key + ".json", MessageSave(e.value.entries))], false)
      else SaveRun(run.written, true)
  }

  /** `save`, over the configuration's entries. */
  method SaveLanguages(configuration: Configuration) returns (written: seq<Written>, failed: bool)
    ensures SaveRun(written, failed) == LanguageSave(configuration.entries)
  {
    var es := configuration.entries;
    written := [];
    failed := false;
    var i := 0;
    while i < |es|
      invariant 0 <= i <= |es|
      invariant SaveRun(written, failed) == LanguageSave(es[..i])
      invariant !failed
    {
      assert es[..i + 1][..i] == es[..i] && es[..i + 1][i] == es[i];
      var e := es[i];
      if !e.value.Section? {
        failed := true;
        LanguageSaveFailedKept(es, i + 1);
        return;
      }
      var content := SaveToObject(e.value.entries, ToMessageJson);
      written := written + [Written(e.key + ".json", JObject(content))];
      i := i + 1;
    }
    assert es[..|es|] == es;
  }

  lemma {:induction false} LanguageSaveFailedKept(es: seq<Entry>, n: nat)
    requires n <= |es| && LanguageSave(es[..n]).failed
    ensures LanguageSave(es) == LanguageSave(es[..n])
    decreases |es| - n
  {
    if n < |es| {
      assert es[..n + 1][..n] == es[..n];
      LanguageSaveFailedKept(es, n + 1);
    } else {
      assert es[..n] == es;
    }
  }

  /*
   * Properties
   */

  lemma {:induction false} LastIndexOfSuffix(k: string)
    requires '.' !in k
    ensures LastIndexOf(k + ".json", '.') == |k|
  {
    var s := k + ".json";
    assert s[|k|] == '.';
    assert forall j :: |k| < j < |s| ==> s[j] != '.';
    LastIndexOfAt(s, |k|);
  }

  lemma {:induction false} LastIndexOfAt(s: string, n: nat)
    requires n < |s| && s[n] == '.' && forall j :: n < j < |s| ==> s[j] != '.'
    ensures LastIndexOf(s, '.') == n
    decreases |s|
  {
    if n < |s| - 1 {
      LastIndexOfAt(s[..|s| - 1], n);
    }
  }

  /** As written, the name extracted from a `*.json` file ends in a dot, so no name passes the pattern. */
  lemma ExtractedNameInvalid(name: string)
    requires HasSuffix(name, ".json")
    ensures ExtractNameAsWritten(name) == name[..|name| - 4]
    ensures !ValidLangName(ExtractNameAsWritten(name))
  {
    var n := |name|;
    assert name[n - 5..] == ".json";
    assert name[n - 5] == '.';
    assert forall j :: n - 5 < j < n ==> name[j] != '.' by {
      forall j | n - 5 < j < n ensures name[j] != '.' {
        assert name[j] == name[n - 5..][j - (n - 5)];
      }
    }
    LastIndexOfAt(name, n - 5);
    var r := ExtractNameAsWritten(name);
    assert r[|r| - 1] == '.';
  }

  /** So, as written, loading languages never loads a file and leaves the configuration as it was. */
  lemma {:induction false} NoLanguageFileLoads(es: seq<Entry>, files: seq<LangFile>)
    requires forall i :: 0 <= i < |files| ==> Listed(files[i])
    ensures LoadFiles(files, es, ExtractNameAsWritten) == Ok(es)
    decreases |files|
  {
    if files != [] {
      NoLanguageFileLoads(es, files[..|files| - 1]);
      ExtractedNameInvalid(files[|files| - 1].name);
    }
  }

  lemma LanguageLoadAsWrittenIgnoresFiles(es: seq<Entry>, listing: Option<seq<LangFile>>)
    ensures LanguageLoadAsWritten(es, listing) == Ok(es)
  {
    if listing.Some? {
      NoLanguageFileLoads(es, Selected(listing.value));
    }
  }

  /** With the corrected extraction, `K.json` loads into `K` for a key `K` without a dot. */
  lemma ExtractNameOfSaved(k: string)
    requires '.' !in k
    ensures ExtractName(k + ".json") == k
    ensures ExtractNameAsWritten(k + ".json") == k + "."
  {
    LastIndexOfSuffix(k);
    assert (k + ".json")[..|k|] == k;
    assert (k + ".json")[..|k| + 1] == k + ".";
  }

  /** The files a save writes, as a later listing shows them. */
  function AsFiles(ws: seq<Written>): (r: seq<LangFile>)
    ensures |r| == |ws| && forall i :: 0 <= i < |ws| ==> r[i] == LangFile(ws[i].file, true, ws[i].content)
  {
    seq(|ws|, i requires 0 <= i < |ws| => LangFile(ws[i].file, true, ws[i].content))
  }

  /** Top-level configurations under valid language names, each holding messages that do not end in a line
      break. */
  predicate Languages(es: seq<Entry>) {
    && WellKeyed(es)
    && forall i :: 0 <= i < |es| ==>
         ValidLangName(es[i].key) && es[i].value.Section? && MessageTree(es[i].value.entries)
  }

  lemma LanguagesInit(es: seq<Entry>)
    requires es != [] && Languages(es)
    ensures Languages(es[..|es| - 1]) && Lookup(es[..|es| - 1], es[|es| - 1].key).None?
  {
    WellKeyedInit(es);
    var init := es[..|es| - 1];
    assert forall i :: 0 <= i < |init| ==> init[i] == es[i];
  }

  lemma SelectedSnoc(files: seq<LangFile>, f: LangFile)
    requires Listed(f)
    ensures Selected(files + [f]) == Selected(files) + [f]
  {
    assert (files + [f])[..|files|] == files;
  }

  lemma LoadFilesSnoc(files: seq<LangFile>, f: LangFile, es: seq<Entry>, extract: string -> string)
    ensures LoadFiles(files + [f], es, extract) ==
              match LoadFiles(files, es, extract)
              case Err(e) => Err(e)
              case Ok(acc) => LoadFile(f, acc, extract)
  {
    assert (files + [f])[..|files|] == files;
  }

  /** With the corrected extraction, loading the files a save wrote into an empty configuration gives the
      languages back. The listing is taken in save order; `File.listFiles` promises no order, and other
      orders are not covered. */
  lemma {:induction false} LanguageRoundTrip(es: seq<Entry>)
    requires Languages(es)
    ensures !LanguageSave(es).failed
    ensures LanguageLoad([], Some(AsFiles(LanguageSave(es).written))) == Ok(es)
    decreases |es|
  {
    if es != [] {
      var init := es[..|es| - 1];
      var e := es[|es| - 1];
      assert es == init + [e];
      LanguagesInit(es);
      LanguageRoundTrip(init);
      var c := e.value.entries;
      var w := Written(e.key + ".json", MessageSave(c));
      var ws := LanguageSave(init).written;
      assert LanguageSave(es).written == ws + [w];
      var f := LangFile(w.file, true, w.content);
      assert AsFiles(ws + [w]) == AsFiles(ws) + [f];
      assert HasSuffix(f.name, ".json") by {
        assert f.name[|f.name| - 5..] == ".json";
      }
      SelectedSnoc(AsFiles(ws), f);
      LoadFilesSnoc(Selected(AsFiles(ws)), f, [], ExtractName);
      ExtractNameOfSaved(e.key);
      MessageRoundTrip(c);
      SectionMemberLoads(init, e.key, SaveObject(c, ToMessageJson), c, ArrayToText, PrimitiveToText);
    }
  }

  /** A save stops exactly when some top-level value is not a configuration. */
  lemma {:induction false} SaveFailsOnNonSection(es: seq<Entry>)
    ensures LanguageSave(es).failed <==> exists i :: 0 <= i < |es| && !es[i].value.Section?
    decreases |es|
  {
    if es != [] {
      var init := es[..|es| - 1];
      SaveFailsOnNonSection(init);
      assert forall i :: 0 <= i < |init| ==> init[i] == es[i];
      if exists i :: 0 <= i < |init| && !init[i].value.Section? {
        var i :| 0 <= i < |init| && !init[i].value.Section?;
        assert !es[i].value.Section?;
      }
    }
  }
}
