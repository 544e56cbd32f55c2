/**
 * `ReflectionUtil.createInstance` / `createInstanceThrows`: pick a public constructor of a type
 * whose parameters can all be bound, greedily, to caller-supplied candidate arguments, and invoke it.
 *
 * Types are names; a candidate argument is described by the set of type names its runtime class is
 * assignable to, so `paramType.isAssignableFrom(arg.getClass())` is `paramType in arg.types`.
 */
module Reflection {

  import opened Outcomes

  /** A public constructor: its parameter types in declaration order, and whether invoking it throws. */
  datatype Constructor = Constructor(params: seq<string>, throws: bool)

  /** A candidate argument: Java `null`, or an object whose class is assignable to each of `types`. */
  datatype Candidate = Null | Object(types: set<string>)

  /** What a creation attempt ends in. `Created` carries the chosen constructor and the argument array it was invoked with. */
  datatype Creation =
    | Created(ctor: nat, arguments: seq<Candidate>)
    | NullResult
    | IllegalArgument(index: nat)
    | ConstructorThrew(ctor: nat)

  /** The lowest index of a candidate assignable to `param`. */
  function FirstFit(param: string, args: seq<set<string>>): (r: Option<nat>)
    ensures r.Some? ==> r.value < |args| && param in args[r.value]
    ensures r.Some? ==> forall j :: 0 <= j < r.value ==> param !in args[j]
    ensures r.None? ==> forall j :: 0 <= j < |args| ==> param !in args[j]
  {
    if args == [] then None
    else if param in args[0] then Some(0)
    else match FirstFit(param, args[1..])
      case None => None
      case Some(j) => Some(j + 1)
  }

  /** Every parameter of `c` finds a candidate. A constructor without parameters is always satisfied. */
  predicate Satisfied(c: Constructor, args: seq<set<string>>) {
    forall i :: 0 <= i < |c.params| ==> FirstFit(c.params[i], args).Some?
  }

  /** The constructor chosen among `ctors[..n]`, in the order the loop visits them: a fully satisfied
      constructor replaces the current choice only when it has strictly more parameters. */
  function ChooseFrom(ctors: seq<Constructor>, args: seq<set<string>>, n: nat): (best: Option<nat>)
    requires n <= |ctors|
    ensures best.Some? ==> best.value < n && Satisfied(ctors[best.value], args)
    decreases n
  {
    if n == 0 then None
    else
      var prev := ChooseFrom(ctors, args, n - 1);
      if Satisfied(ctors[n - 1], args) && (prev.None? || |ctors[prev.value].params| < |ctors[n - 1].params|)
      then Some(n - 1) else prev
  }

  /** Declarative statement of the choice: `k` is fully satisfied, no fully satisfied constructor has more
      parameters, and every earlier fully satisfied one has fewer (ties keep the earlier constructor). */
  ghost predicate IsBestChoice(ctors: seq<Constructor>, args: seq<set<string>>, k: nat) {
    && k < |ctors|
    && Satisfied(ctors[k], args)
    && (forall j :: 0 <= j < |ctors| && Satisfied(ctors[j], args) ==> |ctors[j].params| <= |ctors[k].params|)
    && (forall j :: 0 <= j < k && Satisfied(ctors[j], args) ==> |ctors[j].params| < |ctors[k].params|)
  }

  lemma {:induction false} ChooseFromIsBest(ctors: seq<Constructor>, args: seq<set<string>>, n: nat)
    requires n <= |ctors|
    ensures ChooseFrom(ctors, args, n).None? <==> forall j :: 0 <= j < n ==> !Satisfied(ctors[j], args)
    ensures ChooseFrom(ctors, args, n).Some? ==> IsBestChoice(ctors[..n], args, ChooseFrom(ctors, args, n).value)
    decreases n
  {
    if n > 0 {
      ChooseFromIsBest(ctors, args, n - 1);
      assert ctors[..n - 1] == ctors[..n][..n - 1];
    }
  }

  /** The first null candidate, if any. */
  function FirstNull(arguments: seq<Candidate>): (r: Option<nat>)
    ensures r.Some? ==> r.value < |arguments| && arguments[r.value].Null?
    ensures r.Some? ==> forall j :: 0 <= j < r.value ==> arguments[j].Object?
    ensures r.None? ==> forall j :: 0 <= j < |arguments| ==> arguments[j].Object?
  {
    if arguments == [] then None
    else if arguments[0].Null? then Some(0)
    else match FirstNull(arguments[1..])
      case None => None
      case Some(j) => Some(j + 1)
  }

  function TypesOf(arguments: seq<Candidate>): (r: seq<set<string>>)
    requires forall j :: 0 <= j < |arguments| ==> arguments[j].Object?
    ensures |r| == |arguments| && forall j :: 0 <= j < |r| ==> r[j] == arguments[j].types
  {
    seq(|arguments|, j requires 0 <= j < |arguments| => arguments[j].types)
  }

  /** Specification of both creation methods. `propagate` distinguishes `createInstanceThrows`, which lets the
      constructor's exception through, from `createInstance`, which turns it into `null`. */
  function Creating(ctors: seq<Constructor>, arguments: seq<Candidate>, propagate: bool): Creation
  {
    if ctors == [] then NullResult
    else match FirstNull(arguments)
      case Some(i) => IllegalArgument(i)
      case None =>
        var args := TypesOf(arguments);
        match ChooseFrom(ctors, args, |ctors|)
        case None => NullResult
        case Some(k) =>
          if ctors[k].throws then (if propagate then ConstructorThrew(k) else NullResult)
          else Created(k, seq(|ctors[k].params|, i requires 0 <= i < |ctors[k].params| =>
                                arguments[FirstFit(ctors[k].params[i], args).value]))
  }

  /** Counts the parameters among `params` that find a candidate. */
  function CountBound(params: seq<string>, args: seq<set<string>>): (r: nat)
    ensures r <= |params|
  {
    if params == [] then 0
    else CountBound(params[..|params| - 1], args) + (if FirstFit(params[|params| - 1], args).Some? then 1 else 0)
  }

  lemma {:induction false} CountBoundAll(params: seq<string>, args: seq<set<string>>)
    ensures CountBound(params, args) == |params| <==> forall i :: 0 <= i < |params| ==> FirstFit(params[i], args).Some?
  {
    if params != [] {
      CountBoundAll(params[..|params| - 1], args);
    }
  }

  /** The candidate search for one parameter: the inner loop of the source. */
  method FindArgument(paramType: string, args: array<set<string>>) returns (found: Option<nat>)
    ensures found == FirstFit(paramType, args[..])
  {
    found := None;
    var index := 0;
    while index < args.Length
      invariant 0 <= index <= args.Length
      invariant forall j :: 0 <= j < index ==> paramType !in args[j]
    {
      if paramType in args[index] {
        found := Some(index);
        break;
      }
      index := index + 1;
    }
    FirstFitUnique(paramType, args[..], found);
  }

  lemma FirstFitUnique(param: string, args: seq<set<string>>, r: Option<nat>)
    requires r.Some? ==> r.value < |args| && param in args[r.value] && forall j :: 0 <= j < r.value ==> param !in args[j]
    requires r.None? ==> forall j :: 0 <= j < |args| ==> param !in args[j]
    ensures r == FirstFit(param, args)
  {
  }

  /** Binds every parameter of one constructor: `satisfied` counts the bound parameters and `indices0[idx]`
      is the candidate bound to parameter `idx`. */
  method BindParameters(params: seq<string>, args: array<set<string>>) returns (satisfied: nat, indices0: array<nat>)
    ensures fresh(indices0) && indices0.Length == |params|
    ensures satisfied == CountBound(params, args[..])
    ensures forall i :: 0 <= i < |params| && FirstFit(params[i], args[..]).Some? ==> indices0[i] == FirstFit(params[i], args[..]).value
  {
    satisfied := 0;
    indices0 := new nat[|params|];
    var idx := 0;
    while idx < |params|
      invariant 0 <= idx <= |params|
      invariant satisfied == CountBound(params[..idx], args[..])
      invariant forall i :: 0 <= i < idx && FirstFit(params[i], args[..]).Some? ==> indices0[i] == FirstFit(params[i], args[..]).value
    {
      var found := FindArgument(params[idx], args);
      if found.Some? {
        indices0[idx] := found.value;
        satisfied := satisfied + 1;
      }
      assert params[..idx + 1][..idx] == params[..idx];
      idx := idx + 1;
    }
    assert params[..idx] == params;
  }

  /** The constructor selection loop. */
  method SelectConstructor(ctors: seq<Constructor>, args: array<set<string>>) returns (matching: Option<nat>, indices: seq<nat>)
    ensures matching == ChooseFrom(ctors, args[..], |ctors|)
    ensures matching.Some? ==> |indices| == |ctors[matching.value].params|
    ensures matching.Some? ==> forall i :: 0 <= i < |indices| ==> FirstFit(ctors[matching.value].params[i], args[..]) == Some(indices[i])
  {
    matching := None;
    var satisfiedArguments: int := -1;
    indices := [];
    var n := 0;
    while n < |ctors|
      invariant 0 <= n <= |ctors|
      invariant matching == ChooseFrom(ctors, args[..], n)
      invariant satisfiedArguments == if matching.None? then -1 else |ctors[matching.value].params|
      invariant matching.Some? ==> |indices| == |ctors[matching.value].params|
      invariant matching.Some? ==> forall i :: 0 <= i < |indices| ==> FirstFit(ctors[matching.value].params[i], args[..]) == Some(indices[i])
    {
      var params := ctors[n].params;
      if |params| == 0 && satisfiedArguments == -1 {
        matching := Some(n);
        satisfiedArguments := 0;
        indices := [];
        n := n + 1;
        continue;
      }
      var satisfied, indices0 := BindParameters(params, args);
      CountBoundAll(params, args[..]);
      if satisfied == |params| && satisfiedArguments < satisfied {
        matching := Some(n);
        satisfiedArguments := satisfied;
        indices := indices0[..];
      }
      n := n + 1;
    }
  }

  /** `createInstance` (`propagate == false`) and `createInstanceThrows` (`propagate == true`). */
  method CreateInstance(ctors: seq<Constructor>, arguments: seq<Candidate>, propagate: bool) returns (r: Creation)
    ensures r == Creating(ctors, arguments, propagate)
  {
    if |ctors| == 0 {
      return NullResult;
    }
    var args := new set<string>[|arguments|];
    var index := 0;
    while index < |arguments|
      invariant 0 <= index <= |arguments|
      invariant forall j :: 0 <= j < index ==> arguments[j].Object? && args[j] == arguments[j].types
    {
      var value := arguments[index];
      if value.Null? {
        assert FirstNull(arguments) == Some(index) by { FirstNullUnique(arguments, index); }
        return IllegalArgument(index);
      }
      args[index] := value.types;
      index := index + 1;
    }
    assert args[..] == TypesOf(arguments);
    var matching, indices := SelectConstructor(ctors, args);
    if matching.None? {
      return NullResult;
    }
    var k := matching.value;
    var argumentArray := new Candidate[|indices|](_ => Null);
    index := 0;
    while index < argumentArray.Length
      invariant 0 <= index <= argumentArray.Length
      invariant forall i :: 0 <= i < index ==> argumentArray[i] == arguments[indices[i]]
    {
      argumentArray[index] := arguments[indices[index]];
      index := index + 1;
    }
    if ctors[k].throws {
      r := if propagate then ConstructorThrew(k) else NullResult;
    } else {
      r := Created(k, argumentArray[..]);
    }
  }

  lemma FirstNullUnique(arguments: seq<Candidate>, i: nat)
    requires i < |arguments| && arguments[i].Null? && forall j :: 0 <= j < i ==> arguments[j].Object?
    ensures FirstNull(arguments) == Some(i)
  {
  }

  /*
   * Properties of the creation contract
   */

  /** A type without public constructors yields `null`, whatever the candidates, nulls included. */
  lemma NoConstructorsGiveNull(arguments: seq<Candidate>, propagate: bool)
    ensures Creating([], arguments, propagate) == NullResult
  {
  }

  /** A null candidate is reported with its index before any matching, whatever the constructors. */
  lemma NullCandidateRejected(ctors: seq<Constructor>, arguments: seq<Candidate>, i: nat, propagate: bool)
    requires ctors != [] && i < |arguments| && arguments[i].Null?
    ensures Creating(ctors, arguments, propagate).IllegalArgument?
    ensures Creating(ctors, arguments, propagate).index <= i
    ensures arguments[Creating(ctors, arguments, propagate).index].Null?
  {
  }

  /** A created instance comes from the best fully satisfied constructor, and argument `i` of the invocation is
      the first candidate assignable to parameter `i`; so its length is the constructor's parameter count. */
  lemma CreatedIsBest(ctors: seq<Constructor>, arguments: seq<Candidate>, propagate: bool)
    requires Creating(ctors, arguments, propagate).Created?
    ensures var c := Creating(ctors, arguments, propagate);
      && FirstNull(arguments).None?
      && IsBestChoice(ctors, TypesOf(arguments), c.ctor)
      && !ctors[c.ctor].throws
      && |c.arguments| == |ctors[c.ctor].params|
      && forall i :: 0 <= i < |c.arguments| ==>
           exists j :: 0 <= j < |arguments| && c.arguments[i] == arguments[j] && arguments[j].Object?
                     && ctors[c.ctor].params[i] in arguments[j].types
                     && forall h :: 0 <= h < j ==> ctors[c.ctor].params[i] !in arguments[h].types
  {
    var args := TypesOf(arguments);
    ChooseFromIsBest(ctors, args, |ctors|);
    assert ctors[..|ctors|] == ctors;
    var c := Creating(ctors, arguments, propagate);
    forall i | 0 <= i < |c.arguments|
      ensures exists j :: 0 <= j < |arguments| && c.arguments[i] == arguments[j] && arguments[j].Object?
                     && ctors[c.ctor].params[i] in arguments[j].types
                     && forall h :: 0 <= h < j ==> ctors[c.ctor].params[i] !in arguments[h].types
    {
      var j := FirstFit(ctors[c.ctor].params[i], args).value;
      assert c.arguments[i] == arguments[j];
    }
  }

  /** No fully satisfied constructor means `null`, even when some parameters could be bound. */
  lemma UnsatisfiableGivesNull(ctors: seq<Constructor>, arguments: seq<Candidate>, propagate: bool)
    requires ctors != [] && FirstNull(arguments).None?
    requires forall j :: 0 <= j < |ctors| ==> !Satisfied(ctors[j], TypesOf(arguments))
    ensures Creating(ctors, arguments, propagate) == NullResult
  {
    ChooseFromIsBest(ctors, TypesOf(arguments), |ctors|);
  }

  /** Both methods make the same selection; they differ only in what a throwing constructor turns into. */
  lemma ThrowsVariantSameSelection(ctors: seq<Constructor>, arguments: seq<Candidate>)
    ensures Creating(ctors, arguments, true).ConstructorThrew? ==> Creating(ctors, arguments, false) == NullResult
    ensures !Creating(ctors, arguments, true).ConstructorThrew? ==> Creating(ctors, arguments, false) == Creating(ctors, arguments, true)
  {
  }
}
