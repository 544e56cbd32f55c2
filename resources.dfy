// Resource URIs: `type://path` names a source provider and the path it is
// asked for; a raw path without `://` goes to the default provider.

module Resources {

  import opened Outcomes
  import opened Text

  /** A registered `ISourceProvider`, known here only by identity. */
  type ProviderId = nat

  /** What `provider.provide(plugin, path)` is asked for; the provider's own work is not modelled. */
  datatype DataSource = Provided(provider: ProviderId, path: string)

  /** The `IllegalArgumentException`s and the null check of `register`. */
  datatype RegisterError = BlankType | DuplicateType(typeName: string) | NullProvider

  /** `Unknown resource type '<type>'!`; `None` stands for a `null` default provider. */
  datatype ResolveError = UnknownType(typeName: Option<string>)

  /** Where a raw path is sent: `named` is the type written before `://`, `None` for the default provider. */
  datatype Target = Target(named: Option<string>, path: string)

  predicate IsSeparatorAt(s: string, i: nat) {
    i + 3 <= |s| && s[i] == ':' && s[i + 1] == '/' && s[i + 2] == '/'
  }

  /** `s.indexOf("://", from)`. */
  function SeparatorFrom(s: string, from: nat): (r: Option<nat>)
    requires from <= |s|
    decreases |s| - from
    ensures r.Some? ==> from <= r.value && IsSeparatorAt(s, r.value)
    ensures r.Some? ==> forall j :: from <= j < r.value ==> !IsSeparatorAt(s, j)
    ensures r.None? ==> forall j :: from <= j <= |s| ==> !IsSeparatorAt(s, j)
  {
    if from + 3 > |s| then None
    else if IsSeparatorAt(s, from) then Some(from)
    else SeparatorFrom(s, from + 1)
  }

  /** `rawPath.indexOf("://")`: the first occurrence of the separator. */
  function Separator(s: string): (r: Option<nat>)
    ensures r.Some? ==> IsSeparatorAt(s, r.value) && forall j :: 0 <= j < r.value ==> !IsSeparatorAt(s, j)
    ensures r.None? ==> forall j :: 0 <= j <= |s| ==> !IsSeparatorAt(s, j)
  {
    SeparatorFrom(s, 0)
  }

  predicate AllLetters(s: string) {
    forall i :: 0 <= i < |s| ==> IsAsciiLetter(s[i])
  }

  /** The characters Java's `.` does not match without `DOTALL`. */
  predicate IsLineTerminator(c: char) {
    c == '\n' || c == '\r' || c == '\U{0085}' || c == '\U{2028}' || c == '\U{2029}'
  }

  predicate LineFree(s: string) {
    forall i :: 0 <= i < |s| ==> !IsLineTerminator(s[i])
  }

  /**
   * `RESOURCE_PATTERN` applied with `matches()` to a text whose first `://` is
   * at `i`. The type group is letters only, so it cannot reach past the first
   * `:`; it therefore matches exactly when the text before that first `://` is
   * letters only and the rest holds no line terminator.
   */
  predicate PatternMatches(s: string, i: nat)
    requires IsSeparatorAt(s, i)
  {
    AllLetters(s[..i]) && LineFree(s[i + 3..])
  }

  /** The branch of `resolve(String)` up to the provider lookup. */
  function Parse(raw: string): (t: Target)
    ensures t.named.Some? ==> t.named.value != [] && AllLetters(t.named.value)
  {
    match Separator(raw) {
      case None => Target(None, raw)
      case Some(i) =>
        if !PatternMatches(raw, i) then Target(None, raw[i + 3..])
        else if IsBlank(raw[..i]) then Target(None, raw[i + 3..])
        else Target(Some(raw[..i]), raw[i + 3..])
    }
  }

  class ResourceManager {

    var providers: map<string, ProviderId>
    var defaultProvider: Option<string>

    constructor ()
      ensures providers == map[] && defaultProvider == None
    {
      providers := map[];
      defaultProvider := None;
    }

    /** `setDefault`: `None` is a `null` default. */
    method SetDefault(name: Option<string>)
      modifies this
      ensures defaultProvider == name && providers == old(providers)
    {
      defaultProvider := name;
    }

    /** `register(type, provider)`: the checks run in this order, and only success changes the map. */
    method Register(typeName: Option<string>, provider: Option<ProviderId>) returns (error: Option<RegisterError>)
      modifies this
      ensures defaultProvider == old(defaultProvider)
      ensures (typeName.None? || IsBlank(typeName.value)) ==> error == Some(BlankType)
      ensures typeName.Some? && !IsBlank(typeName.value) && typeName.value in old(providers)
        ==> error == Some(DuplicateType(typeName.value))
      ensures typeName.Some? && !IsBlank(typeName.value) && typeName.value !in old(providers) && provider.None?
        ==> error == Some(NullProvider)
      ensures error.None? <==> typeName.Some? && !IsBlank(typeName.value) && typeName.value !in old(providers) && provider.Some?
      ensures error.None? ==> providers == old(providers)[typeName.value := provider.value]
      ensures error.Some? ==> providers == old(providers)
    {
      if typeName.None? || IsBlank(typeName.value) {
        return Some(BlankType);
      }
      if typeName.value in providers {
        return Some(DuplicateType(typeName.value));
      }
      if provider.None? {
        return Some(NullProvider);
      }
      providers := providers[typeName.value := provider.value];
      return None;
    }

    /** The type `resolve(String)` looks up: the one written in the path, else the default. */
    function TypeFor(raw: string): (r: Option<string>)
      reads this
      ensures Parse(raw).named.Some? ==> r == Parse(raw).named
      ensures Parse(raw).named.None? ==> r == defaultProvider
    {
      if Parse(raw).named.Some? then Parse(raw).named else defaultProvider
    }

    /** `resolve(String)` followed by `resolve(String, String)`. */
    function Resolve(raw: string): (r: Result<DataSource, ResolveError>)
      reads this
      ensures r.Ok? <==> TypeFor(raw).Some? && TypeFor(raw).value in providers
      ensures r.Ok? ==> r.value == Provided(providers[TypeFor(raw).value], Parse(raw).path)
      ensures r.Err? ==> r.error == UnknownType(TypeFor(raw))
    {
      var t := TypeFor(raw);
      if t.Some? && t.value in providers then Ok(Provided(providers[t.value], Parse(raw).path))
      else Err(UnknownType(t))
    }
  }

  /** Without `://` the whole raw path goes to the default provider. */
  lemma NoSeparatorUsesDefault(raw: string)
    requires forall j :: 0 <= j < |raw| ==> !IsSeparatorAt(raw, j)
    ensures Parse(raw) == Target(None, raw)
  {
    assert !IsSeparatorAt(raw, |raw|);
  }

  /** Whatever the pattern says, the path is the text after the first `://`. */
  lemma PathFollowsFirstSeparator(raw: string, i: nat)
    requires IsSeparatorAt(raw, i)
    requires forall j :: 0 <= j < i ==> !IsSeparatorAt(raw, j)
    ensures Parse(raw).path == raw[i + 3..]
  {
    assert Separator(raw) == Some(i);
  }

  lemma {:induction false} LettersHaveNoSeparator(t: string, rest: string, j: nat)
    requires AllLetters(t) && j < |t|
    ensures !IsSeparatorAt(t + rest, j)
  {
    assert (t + rest)[j] == t[j];
  }

  lemma SeparatorAfterLetters(t: string, p: string)
    requires AllLetters(t)
    ensures Separator(t + "://" + p) == Some(|t|)
  {
    var raw := t + "://" + p;
    assert raw == t + ("://" + p);
    forall j | 0 <= j < |t|
      ensures !IsSeparatorAt(raw, j)
    {
      LettersHaveNoSeparator(t, "://" + p, j);
    }
    assert IsSeparatorAt(raw, |t|);
  }

  /** `type://path` with a letters-only type and a single-line path names that type and that path. */
  lemma NamedType(t: string, p: string)
    requires t != [] && AllLetters(t) && LineFree(p)
    ensures Parse(t + "://" + p) == Target(Some(t), p)
  {
    var raw := t + "://" + p;
    SeparatorAfterLetters(t, p);
    assert raw[..|t|] == t;
    assert raw[|t| + 3..] == p;
    assert IsAsciiLetter(t[0]) && !IsWhitespace(t[0]);
  }

  /** `://path` (an empty type) goes to the default provider. */
  lemma EmptyTypeUsesDefault(p: string)
    ensures Parse("://" + p) == Target(None, p)
  {
    SeparatorAfterLetters([], p);
    assert [] + "://" + p == "://" + p;
  }

  /** A path holding a line terminator fails the pattern, so even a letters-only type falls back to the default
      provider, still with the text after `://`. */
  lemma LineBreakUsesDefault(t: string, p: string)
    requires AllLetters(t) && !LineFree(p)
    ensures Parse(t + "://" + p) == Target(None, p)
  {
    var raw := t + "://" + p;
    SeparatorAfterLetters(t, p);
    assert raw[|t| + 3..] == p;
  }

  /** A type with a non-letter (and no `:`) fails the pattern, so the default provider gets the text after `://`:
      `a-b://x` goes to the default with `x`. */
  lemma NonLetterTypeUsesDefault(t: string, p: string)
    requires !AllLetters(t) && ':' !in t
    ensures Parse(t + "://" + p) == Target(None, p)
  {
    var raw := t + "://" + p;
    forall j | 0 <= j < |t| ensures !IsSeparatorAt(raw, j) {
      assert raw[j] == t[j];
    }
    assert IsSeparatorAt(raw, |t|);
    assert raw[..|t|] == t;
    assert raw[|t| + 3..] == p;
  }

  /** A provider registered under a letters-only type is the one `type://path` resolves to. */
  lemma RegisteredResolves(m: ResourceManager, t: string, p: string)
    requires t != [] && AllLetters(t) && LineFree(p) && t in m.providers
    ensures m.Resolve(t + "://" + p) == Ok(Provided(m.providers[t], p))
  {
    NamedType(t, p);
  }

  /** A type nobody registered is refused, even when a default exists. */
  lemma UnregisteredRefused(m: ResourceManager, t: string, p: string)
    requires t != [] && AllLetters(t) && LineFree(p) && t !in m.providers
    ensures m.Resolve(t + "://" + p) == Err(UnknownType(Some(t)))
  {
    NamedType(t, p);
  }
}
