/**
 * `MessageConfigHandler`: message files, where a message is a string and a multi-line message is written as
 * an array of its lines. The object walk is the one of the JSON handler; only the conversions differ.
 */
module MessageConfig {

  import opened Outcomes
  import opened Text
  import opened Config
  import opened JsonConfig

  /** `getAsString()` of a primitive. */
  function AsString(p: Primitive): string {
    match p
    case PBool(b) => if b then "true" else "false"
    case PNumber(text, _) => text
    case PString(s) => s
  }

  /** The strings of an array's primitive elements, in order; `null`s, arrays and objects are skipped. */
  function PrimitiveStrings(a: seq<Json>): (r: seq<string>)
    ensures |r| <= |a|
    decreases |a|
  {
    if a == [] then []
    else PrimitiveStrings(a[..|a| - 1]) + (if a[|a| - 1].JPrim? then [AsString(a[|a| - 1].p)] else [])
  }

  /** The string builder loop of `loadToConfig`: the primitives' strings with `"\n"` before every one but
      the first. */
  method JoinArray(a: seq<Json>) returns (text: string)
    ensures text == Join(PrimitiveStrings(a), "\n")
  {
    text := "";
    var first := true;
    var i := 0;
    while i < |a|
      invariant 0 <= i <= |a|
      invariant text == Join(PrimitiveStrings(a[..i]), "\n")
      invariant first <==> PrimitiveStrings(a[..i]) == []
    {
      assert a[..i + 1][..i] == a[..i] && a[..i + 1][i] == a[i];
      assert PrimitiveStrings(a[..i + 1]) == PrimitiveStrings(a[..i]) + (if a[i].JPrim? then [AsString(a[i].p)] else []);
      if a[i].JPrim? {
        var piece := AsString(a[i].p);
        JoinSnoc(PrimitiveStrings(a[..i]), piece, "\n");
        if first {
          first := false;
        } else {
          text := text + "\n";
        }
        text := text + piece;
        assert PrimitiveStrings(a[..i]) == [] ==> text == piece;
        assert PrimitiveStrings(a[..i + 1]) == PrimitiveStrings(a[..i]) + [piece];
        assert text == Join(PrimitiveStrings(a[..i]) + [piece], "\n");
      } else {
        assert PrimitiveStrings(a[..i + 1]) == PrimitiveStrings(a[..i]);
      }
      i := i + 1;
    }
    assert a[..|a|] == a;
  }

  function ArrayToText(a: seq<Json>): Value {
    Str(Join(PrimitiveStrings(a), "\n"))
  }

  function PrimitiveToText(p: Primitive): Value {
    Str(AsString(p))
  }

  /** The array written for a multi-line message: one string element per line. */
  function LineArray(lines: seq<string>): (r: seq<Json>)
    ensures |r| == |lines| && forall i :: 0 <= i < |lines| ==> r[i] == JPrim(PString(lines[i]))
  {
    seq(|lines|, i requires 0 <= i < |lines| => JPrim(PString(lines[i])))
  }

  /** `saveToObject`'s conversion of a value: only strings are written (`get(key, String.class)`); a string
      holding `"\n"` becomes the array of its `split("\n")` pieces, any other string a plain property. */
  function ToMessageJson(v: Value): Option<Json> {
    if !v.Str? then None
    else if '\n' in v.s then Some(JArray(LineArray(Split(v.s, '\n'))))
    else Some(JPrim(PString(v.s)))
  }

  /** The loop filling the array of lines. */
  method LinesToArray(lines: seq<string>) returns (elements: seq<Json>)
    ensures elements == LineArray(lines)
  {
    elements := [];
    var i := 0;
    while i < |lines|
      invariant 0 <= i <= |lines|
      invariant elements == LineArray(lines[..i])
    {
      elements := elements + [JPrim(PString(lines[i]))];
      i := i + 1;
    }
    assert lines[..|lines|] == lines;
  }

  function MessageLoad(root: Json, es: seq<Entry>): Result<seq<Entry>, Failure> {
    Load(root, es, ArrayToText, PrimitiveToText)
  }

  function MessageSave(es: seq<Entry>): Json {
    JObject(SaveObject(es, ToMessageJson))
  }

  /*
   * Properties
   */

  /** The lines written as an array are the lines read back. */
  lemma {:induction false} LineArrayStrings(lines: seq<string>)
    ensures PrimitiveStrings(LineArray(lines)) == lines
    decreases |lines|
  {
    if lines != [] {
      var init := lines[..|lines| - 1];
      LineArrayStrings(init);
      assert LineArray(lines)[..|lines| - 1] == LineArray(init);
      assert lines == init + [lines[|lines| - 1]];
    }
  }

  /** A message that does not end in a line break comes back from a save and a load unchanged. */
  lemma MessageTextRoundTrip(s: string)
    requires !EndsWith(s, '\n')
    ensures ToMessageJson(Str(s)).Some?
    ensures ToMessageJson(Str(s)).value.JArray? ==> ArrayToText(ToMessageJson(Str(s)).value.elements) == Str(s)
    ensures ToMessageJson(Str(s)).value.JPrim? ==> PrimitiveToText(ToMessageJson(Str(s)).value.p) == Str(s)
    ensures ToMessageJson(Str(s)).value.JArray? || ToMessageJson(Str(s)).value.JPrim?
  {
    if '\n' in s {
      SplitJoin(s, '\n');
      LineArrayStrings(Split(s, '\n'));
    }
  }

  /** A configuration of messages none of which ends in a line break. */
  predicate MessageTree(es: seq<Entry>)
    decreases es
  {
    forall i :: 0 <= i < |es| ==>
      if es[i].value.Section? then MessageTree(es[i].value.entries)
      else es[i].value.Str? && !EndsWith(es[i].value.s, '\n')
  }

  lemma {:induction false} MessageTreeLeaves(es: seq<Entry>)
    requires MessageTree(es)
    ensures LeavesRoundTrip(es, ToMessageJson, ArrayToText, PrimitiveToText)
    decreases es
  {
    forall i | 0 <= i < |es|
      ensures if es[i].value.Section? then LeavesRoundTrip(es[i].value.entries, ToMessageJson, ArrayToText, PrimitiveToText)
              else
                && ToMessageJson(es[i].value).Some?
                && match ToMessageJson(es[i].value).value
                   case JArray(a) => ArrayToText(a) == es[i].value
                   case JPrim(p) => PrimitiveToText(p) == es[i].value
                   case _ => false
    {
      if es[i].value.Section? {
        MessageTreeLeaves(es[i].value.entries);
      } else {
        MessageTextRoundTrip(es[i].value.s);
      }
    }
  }

  /** Saving such a configuration and loading the document into an empty configuration gives it back. */
  lemma MessageRoundTrip(es: seq<Entry>)
    requires WellKeyed(es) && MessageTree(es)
    ensures MessageLoad(MessageSave(es), []) == Ok(es)
  {
    MessageTreeLeaves(es);
    SaveLoadRoundTrip(es, ToMessageJson, ArrayToText, PrimitiveToText);
  }

  /** The line break at the end of a message is lost: `"a\n"` splits into the one line `"a"`. */
  lemma TrailingLineBreakLost()
    ensures ToMessageJson(Str("a\n")) == Some(JArray([JPrim(PString("a"))]))
    ensures ArrayToText([JPrim(PString("a"))]) == Str("a")
  {
    var s := "a\n";
    assert s[1] == '\n' && IndexOf(s, '\n') == Some(1);
    assert s[..1] == "a" && s[2..] == [];
    assert IndexOf([], '\n') == None;
    assert Pieces([], '\n') == [[]];
    assert Pieces(s, '\n') == ["a", []];
    assert Split(s, '\n') == ["a"];
    assert LineArray(["a"]) == [JPrim(PString("a"))];
    assert DropTrailingEmpty(["a", []]) == ["a"] by {
      assert ["a", []][..1] == ["a"];
    }
    var a := [JPrim(PString("a"))];
    assert a[..0] == [];
  }

  /** Only strings are written. */
  lemma OnlyStringsSaved(v: Value)
    ensures ToMessageJson(v).Some? <==> v.Str?
  {
  }

  /** The message handler rejects exactly the roots that are not objects. */
  lemma MessageRootMustBeObject(root: Json, es: seq<Entry>)
    ensures MessageLoad(root, es) == Err(IllegalState) <==> !root.JObject?
  {
    RootMustBeObject(root, es, ArrayToText, PrimitiveToText);
  }
}
