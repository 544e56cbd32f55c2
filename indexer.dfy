/**
 * The build-time annotation processor `ExtensionProcessor`: for every `@Extension` type it walks the
 * interface graph breadth-first, then the superclass chain, and files the type's name under every
 * `@ExtensionPoint` interface it reaches; each non-empty bucket is written as a resource under
 * `META-INF/extension/`, one name per line.
 *
 * Declared types are `TypeNode` values: the processor's `Types`/`Elements` helpers become structural
 * functions over them (assignability to `IExtension` is reachability of that name).
 */
module Indexer {

  import opened Outcomes
  import opened Text

  const ExtensionResource: string := "META-INF/extension/"
  const ExtensionTypeName: string := "me.lauriichan.minecraft.pluginbase.extension.IExtension"

  /** The resource that lists the implementations of the extension point `typeName`. */
  function ExtensionPath(typeName: string): (r: string)
    ensures StartsWith(r, ExtensionResource) && r[|ExtensionResource|..] == typeName
  {
    ExtensionResource + typeName
  }

  lemma ExtensionPathInjective(a: string, b: string)
    requires ExtensionPath(a) == ExtensionPath(b)
    ensures a == b
  {
    assert a == ExtensionPath(a)[|ExtensionResource|..];
  }

  /** A declared type: its qualified name, direct interfaces, superclass (absent for `Object` and interfaces),
      whether it carries `@ExtensionPoint`, and whether it is abstract. */
  datatype TypeNode = TypeNode(
    name: string,
    interfaces: seq<TypeNode>,
    superclass: Option<TypeNode>,
    extensionPoint: bool,
    isAbstract: bool)

  /** An element the round reports as annotated: a type (possibly an annotation type) or anything else. */
  datatype Element = TypeElement(node: TypeNode, annotationType: bool) | OtherElement

  /** Why `preProcessExtension` / `processExtension` did not index an element, or that it did. */
  datatype Verdict = BothRoles | NotAType | NotAnExtension | Abstract | Duplicate | Indexed

  /** `typeHelper.isAssignable(t, IExtension)`: `IExtension` is `t` or one of its supertypes. */
  predicate IsExtension(t: TypeNode)
    decreases t
  {
    || t.name == ExtensionTypeName
    || (exists i :: 0 <= i < |t.interfaces| && IsExtension(t.interfaces[i]))
    || (t.superclass.Some? && IsExtension(t.superclass.value))
  }

  /** `isInterfaceNested(list, searched)`: some type of `list`, or an interface it extends, is named `searched`. */
  predicate IsInterfaceNested(list: seq<TypeNode>, searched: string)
    decreases list
  {
    exists i :: 0 <= i < |list| && (list[i].name == searched || IsInterfaceNested(list[i].interfaces, searched))
  }

  /** Every type reachable from `t` along interface edges, `t` included. */
  function Nodes(t: TypeNode): set<TypeNode>
    decreases t
  {
    {t} + NodesQ(t.interfaces)
  }

  function NodesQ(q: seq<TypeNode>): set<TypeNode>
    decreases q
  {
    if q == [] then {} else Nodes(q[0]) + NodesQ(q[1..])
  }

  /** `isInterfaceNested` is reachability along interface edges. */
  lemma {:induction false} NestedIffReachable(list: seq<TypeNode>, searched: string)
    ensures IsInterfaceNested(list, searched) <==> exists a :: a in NodesQ(list) && a.name == searched
    decreases list
  {
    if list != [] {
      NestedIffReachable(list[1..], searched);
      NestedIffReachable(list[0].interfaces, searched);
      if IsInterfaceNested(list, searched) {
        var i :| 0 <= i < |list| && (list[i].name == searched || IsInterfaceNested(list[i].interfaces, searched));
        if i > 0 {
          assert list[1..][i - 1] == list[i];
          assert IsInterfaceNested(list[1..], searched);
        }
      } else {
        assert !IsInterfaceNested(list[0].interfaces, searched) && list[0].name != searched;
        assert !IsInterfaceNested(list[1..], searched);
      }
    }
  }

  /*
   * The interface walk
   */

  function Size(t: TypeNode): nat
    decreases t
  {
    1 + QueueSize(t.interfaces)
  }

  function QueueSize(q: seq<TypeNode>): nat
    decreases q
  {
    if q == [] then 0 else Size(q[0]) + QueueSize(q[1..])
  }

  lemma {:induction false} QueueSizeAppend(a: seq<TypeNode>, b: seq<TypeNode>)
    ensures QueueSize(a + b) == QueueSize(a) + QueueSize(b)
  {
    if a != [] {
      assert (a + b)[0] == a[0] && (a + b)[1..] == a[1..] + b;
      QueueSizeAppend(a[1..], b);
      calc {
        QueueSize(a + b);
        Size(a[0]) + QueueSize(a[1..] + b);
        Size(a[0]) + QueueSize(a[1..]) + QueueSize(b);
        QueueSize(a) + QueueSize(b);
      }
    } else {
      assert a + b == b;
    }
  }

  /** The breadth-first loop of `addToPoints` over a queue of interfaces: an interface that is already a bucket
      receives `name`; `IExtension` itself and interfaces that are no extension are dropped; a plain interface
      enqueues its parents; an `@ExtensionPoint` interface opens a new bucket holding `name`. */
  function Walk(points: map<string, set<string>>, name: string, queue: seq<TypeNode>): map<string, set<string>>
    decreases QueueSize(queue)
  {
    if queue == [] then points
    else
      var mirror := queue[0];
      var rest := queue[1..];
      assert QueueSize(queue) == Size(mirror) + QueueSize(rest);
      if mirror.name in points then Walk(points[mirror.name := points[mirror.name] + {name}], name, rest)
      else if mirror.name == ExtensionTypeName || !IsExtension(mirror) then Walk(points, name, rest)
      else if !mirror.extensionPoint then
        QueueSizeAppend(rest, mirror.interfaces);
        Walk(points, name, rest + mirror.interfaces)
      else Walk(points[mirror.name := {name}], name, rest)
  }

  /** `addToPoints`: the walk over the type's interfaces, then the same on its superclass while that is an extension. */
  function AddPoints(points: map<string, set<string>>, name: string, t: TypeNode): map<string, set<string>>
    decreases t
  {
    var walked := Walk(points, name, t.interfaces);
    if t.superclass.Some? && IsExtension(t.superclass.value) then AddPoints(walked, name, t.superclass.value)
    else walked
  }

  /*
   * What the walk computes
   */

  /** An interface that terminates the walk with a bucket of its own. */
  predicate IsPoint(t: TypeNode) {
    t.extensionPoint && IsExtension(t) && t.name != ExtensionTypeName
  }

  /** The extension points found from `t`: `t` itself when it is one; through a plain extension interface,
      those found from its parents; nothing otherwise. */
  function Targets(t: TypeNode): set<string>
    decreases t
  {
    if t.name == ExtensionTypeName || !IsExtension(t) then {}
    else if t.extensionPoint then {t.name}
    else TargetsQ(t.interfaces)
  }

  function TargetsQ(q: seq<TypeNode>): set<string>
    decreases q
  {
    if q == [] then {} else Targets(q[0]) + TargetsQ(q[1..])
  }

  /** The extension points of a type: those of its interfaces and, while the superclass is an extension, of the superclass. */
  function AllTargets(t: TypeNode): set<string>
    decreases t
  {
    TargetsQ(t.interfaces) + (if t.superclass.Some? && IsExtension(t.superclass.value) then AllTargets(t.superclass.value) else {})
  }

  /** Every type the walk of `t` and of its superclass chain can see. */
  function ChainNodes(t: TypeNode): set<TypeNode>
    decreases t
  {
    NodesQ(t.interfaces) + (if t.superclass.Some? && IsExtension(t.superclass.value) then ChainNodes(t.superclass.value) else {})
  }

  /** The bucket of `k`, empty when there is none. */
  function Bucket(points: map<string, set<string>>, k: string): set<string> {
    if k in points then points[k] else {}
  }

  /** `name` added to the buckets `targets`, creating the missing ones. */
  function AddName(points: map<string, set<string>>, targets: set<string>, name: string): (r: map<string, set<string>>)
    ensures r.Keys == points.Keys + targets
    ensures forall k :: Bucket(r, k) == Bucket(points, k) + (if k in targets then {name} else {})
  {
    map k | k in points.Keys + targets :: Bucket(points, k) + (if k in targets then {name} else {})
  }

  lemma SameBuckets(p: map<string, set<string>>, q: map<string, set<string>>)
    requires p.Keys == q.Keys && forall k :: Bucket(p, k) == Bucket(q, k)
    ensures p == q
  {
    forall k | k in p ensures p[k] == q[k] {
      assert Bucket(p, k) == Bucket(q, k);
    }
  }

  /** One name denotes one type. */
  ghost predicate Consistent(s: set<TypeNode>) {
    forall a, b :: a in s && b in s && a.name == b.name ==> a == b
  }

  /** Existing buckets are named after extension points. */
  ghost predicate KeysArePoints(points: map<string, set<string>>, s: set<TypeNode>) {
    forall a :: a in s && a.name in points ==> IsPoint(a)
  }

  lemma {:induction false} NodesQAppend(a: seq<TypeNode>, b: seq<TypeNode>)
    ensures NodesQ(a + b) == NodesQ(a) + NodesQ(b)
    ensures TargetsQ(a + b) == TargetsQ(a) + TargetsQ(b)
  {
    if a != [] {
      assert (a + b)[0] == a[0] && (a + b)[1..] == a[1..] + b;
      NodesQAppend(a[1..], b);
      assert NodesQ(a + b) == Nodes(a[0]) + NodesQ(a[1..] + b);
      assert TargetsQ(a + b) == Targets(a[0]) + TargetsQ(a[1..] + b);
    } else {
      assert a + b == b;
    }
  }

  lemma {:induction false} TargetsArePoints(q: seq<TypeNode>, x: string)
    requires x in TargetsQ(q)
    ensures exists a :: a in NodesQ(q) && IsPoint(a) && a.name == x
    decreases q
  {
    assert Nodes(q[0]) <= NodesQ(q) && NodesQ(q[1..]) <= NodesQ(q);
    if x in Targets(q[0]) {
      var t := q[0];
      assert NodesQ(t.interfaces) <= Nodes(t);
      if !t.extensionPoint {
        TargetsArePoints(t.interfaces, x);
      } else {
        assert t in Nodes(t) && IsPoint(t) && t.name == x;
      }
    } else {
      TargetsArePoints(q[1..], x);
    }
  }

  lemma BucketTwice(points: map<string, set<string>>, t1: set<string>, t2: set<string>, name: string, k: string)
    ensures Bucket(AddName(AddName(points, t1, name), t2, name), k) == Bucket(AddName(points, t1 + t2, name), k)
  {
    var m := AddName(points, t1, name);
    assert Bucket(m, k) == Bucket(points, k) + (if k in t1 then {name} else {});
  }

  lemma AddNameTwice(points: map<string, set<string>>, t1: set<string>, t2: set<string>, name: string)
    ensures AddName(AddName(points, t1, name), t2, name) == AddName(points, t1 + t2, name)
  {
    var twice := AddName(AddName(points, t1, name), t2, name);
    var once := AddName(points, t1 + t2, name);
    assert twice.Keys == points.Keys + t1 + t2 == once.Keys;
    forall k ensures Bucket(twice, k) == Bucket(once, k) {
      BucketTwice(points, t1, t2, name, k);
    }
    SameBuckets(twice, once);
  }

  lemma AddNameOne(points: map<string, set<string>>, k: string, name: string)
    ensures AddName(points, {k}, name) == points[k := Bucket(points, k) + {name}]
  {
    var rhs := points[k := Bucket(points, k) + {name}];
    forall j ensures Bucket(AddName(points, {k}, name), j) == Bucket(rhs, j) {
      if j != k { assert Bucket(rhs, j) == Bucket(points, j); }
    }
    SameBuckets(AddName(points, {k}, name), rhs);
  }

  lemma AddNameNothing(points: map<string, set<string>>, name: string)
    ensures AddName(points, {}, name) == points
  {
    SameBuckets(AddName(points, {}, name), points);
  }

  /** The walk's first step when the head of the queue already has a bucket or opens a new one. */
  lemma WalkPointStep(points: map<string, set<string>>, name: string, queue: seq<TypeNode>)
    requires queue != [] && IsPoint(queue[0])
    requires queue[0].name in points || queue[0].extensionPoint
    requires var next := AddName(points, {queue[0].name}, name);
      Walk(next, name, queue[1..]) == AddName(next, TargetsQ(queue[1..]), name)
    ensures Walk(points, name, queue) == AddName(points, TargetsQ(queue), name)
  {
    var mirror := queue[0];
    AddNameOne(points, mirror.name, name);
    if mirror.name !in points {
      assert Bucket(points, mirror.name) + {name} == {name};
    }
    AddNameTwice(points, {mirror.name}, TargetsQ(queue[1..]), name);
    assert TargetsQ(queue) == {mirror.name} + TargetsQ(queue[1..]);
  }

  /** The walk's first step when the head of the queue is a plain extension interface. */
  lemma WalkDescendStep(points: map<string, set<string>>, name: string, queue: seq<TypeNode>)
    requires queue != [] && queue[0].name !in points && queue[0].name != ExtensionTypeName
    requires IsExtension(queue[0]) && !queue[0].extensionPoint
    requires var next := queue[1..] + queue[0].interfaces;
      Walk(points, name, next) == AddName(points, TargetsQ(next), name)
    ensures Walk(points, name, queue) == AddName(points, TargetsQ(queue), name)
  {
    NodesQAppend(queue[1..], queue[0].interfaces);
  }

  /** Whatever the visiting order, the walk files `name` under exactly the extension points reachable
      through plain extension interfaces, provided names denote one type each and the existing buckets are
      extension points. */
  lemma {:induction false} WalkFilesTargets(points: map<string, set<string>>, name: string, queue: seq<TypeNode>)
    requires Consistent(NodesQ(queue)) && KeysArePoints(points, NodesQ(queue))
    ensures Walk(points, name, queue) == AddName(points, TargetsQ(queue), name)
    decreases QueueSize(queue)
  {
    if queue == [] {
      AddNameNothing(points, name);
    } else {
      var mirror := queue[0];
      var rest := queue[1..];
      assert QueueSize(queue) == Size(mirror) + QueueSize(rest);
      assert NodesQ(queue) == Nodes(mirror) + NodesQ(rest);
      assert mirror in Nodes(mirror);
      if mirror.name in points || (mirror.name != ExtensionTypeName && IsExtension(mirror) && mirror.extensionPoint) {
        var next := AddName(points, {mirror.name}, name);
        assert KeysArePoints(next, NodesQ(rest));
        WalkFilesTargets(next, name, rest);
        WalkPointStep(points, name, queue);
      } else if mirror.name == ExtensionTypeName || !IsExtension(mirror) {
        WalkFilesTargets(points, name, rest);
        assert TargetsQ(queue) == TargetsQ(rest);
      } else {
        QueueSizeAppend(rest, mirror.interfaces);
        NodesQAppend(rest, mirror.interfaces);
        WalkFilesTargets(points, name, rest + mirror.interfaces);
        WalkDescendStep(points, name, queue);
      }
    }
  }

  /** `addToPoints` files `name` under exactly `AllTargets(t)`: the extension points of its interfaces
      and of its superclass chain. */
  lemma {:induction false} AddPointsFilesAllTargets(points: map<string, set<string>>, name: string, t: TypeNode)
    requires Consistent(ChainNodes(t)) && KeysArePoints(points, ChainNodes(t))
    ensures AddPoints(points, name, t) == AddName(points, AllTargets(t), name)
    decreases t
  {
    WalkFilesTargets(points, name, t.interfaces);
    var walked := AddName(points, TargetsQ(t.interfaces), name);
    if t.superclass.Some? && IsExtension(t.superclass.value) {
      var s := t.superclass.value;
      forall a | a in ChainNodes(s) && a.name in walked ensures IsPoint(a) {
        if a.name !in points {
          TargetsArePoints(t.interfaces, a.name);
        }
      }
      AddPointsFilesAllTargets(walked, name, s);
      AddNameTwice(points, TargetsQ(t.interfaces), AllTargets(s), name);
    }
  }

  /** Buckets are sets: a second walk for the same name changes nothing, however many paths reach a point. */
  lemma AddNameIdempotent(points: map<string, set<string>>, targets: set<string>, name: string)
    ensures AddName(AddName(points, targets, name), targets, name) == AddName(points, targets, name)
  {
  }

  /*
   * Per-element decisions
   */

  /** `processExtension`: rejects non-types, non-extensions and abstract types, then skips names already processed. */
  function ProcessVerdict(extensions: set<string>, element: Element): Verdict
  {
    match element
    case OtherElement => NotAType
    case TypeElement(node, _) =>
      if !IsExtension(node) then NotAnExtension
      else if node.isAbstract then Abstract
      else if node.name in extensions then Duplicate
      else Indexed
  }

  /** `preProcessExtension`: an `@ExtensionPoint` type whose interfaces reach `IExtension` is an error. */
  function PreProcessVerdict(extensions: set<string>, element: Element): Verdict
  {
    if element.TypeElement? && element.node.extensionPoint && IsInterfaceNested(element.node.interfaces, ExtensionTypeName)
    then BothRoles
    else ProcessVerdict(extensions, element)
  }

  /** The buckets after `preProcessExtension(element)`. */
  function Index(extensions: set<string>, points: map<string, set<string>>, element: Element): map<string, set<string>>
  {
    if PreProcessVerdict(extensions, element) == Indexed then AddPoints(points, element.node.name, element.node) else points
  }

  /** The processed names after `preProcessExtension(element)`. */
  function Record(extensions: set<string>, element: Element): set<string>
  {
    if PreProcessVerdict(extensions, element) == Indexed then extensions + {element.node.name} else extensions
  }

  /** Anything rejected touches neither the processed names nor the buckets. */
  lemma RejectedTouchesNothing(extensions: set<string>, points: map<string, set<string>>, element: Element)
    requires PreProcessVerdict(extensions, element) != Indexed
    ensures Index(extensions, points, element) == points && Record(extensions, element) == extensions
  {
  }

  /** An extension point that is also an extension is never indexed. */
  lemma BothRolesNeverIndexed(extensions: set<string>, element: Element)
    requires element.TypeElement? && element.node.extensionPoint
    requires exists a :: a in NodesQ(element.node.interfaces) && a.name == ExtensionTypeName
    ensures PreProcessVerdict(extensions, element) == BothRoles
  {
    NestedIffReachable(element.node.interfaces, ExtensionTypeName);
  }

  /*
   * The processor
   */

  /** The names and buckets of one round, as `process` leaves them. */
  class ExtensionProcessor {

    var extensions: set<string>
    var extensionPoints: map<string, set<string>>

    constructor ()
      ensures extensions == {} && extensionPoints == map[]
    {
      extensions := {};
      extensionPoints := map[];
    }

    method AddToPoints(name: string, superElement: TypeNode)
      modifies this
      ensures extensionPoints == AddPoints(old(extensionPoints), name, superElement)
      ensures extensions == old(extensions)
      decreases superElement
    {
      var queue := superElement.interfaces;
      while queue != []
        invariant Walk(extensionPoints, name, queue) == Walk(old(extensionPoints), name, superElement.interfaces)
        invariant extensions == old(extensions)
        decreases QueueSize(queue)
      {
        var mirror := queue[0];
        assert QueueSize(queue) == Size(mirror) + QueueSize(queue[1..]);
        queue := queue[1..];
        var typeName := mirror.name;
        if typeName in extensionPoints {
          extensionPoints := extensionPoints[typeName := extensionPoints[typeName] + {name}];
          continue;
        }
        if typeName == ExtensionTypeName || !IsExtension(mirror) {
          continue;
        }
        if !mirror.extensionPoint {
          QueueSizeAppend(queue, mirror.interfaces);
          queue := queue + mirror.interfaces;
          continue;
        }
        extensionPoints := extensionPoints[typeName := {name}];
      }
      match superElement.superclass
      case None =>
      case Some(superclass) =>
        if !IsExtension(superclass) {
          return;
        }
        AddToPoints(name, superclass);
    }

    method ProcessExtension(element: Element) returns (verdict: Verdict)
      modifies this
      ensures verdict == ProcessVerdict(old(extensions), element)
      ensures verdict == Indexed ==>
                extensions == old(extensions) + {element.node.name} && extensionPoints == AddPoints(old(extensionPoints), element.node.name, element.node)
      ensures verdict != Indexed ==> extensions == old(extensions) && extensionPoints == old(extensionPoints)
    {
      if !element.TypeElement? {
        return NotAType;
      }
      var node := element.node;
      if !IsExtension(node) {
        return NotAnExtension;
      }
      if node.isAbstract {
        return Abstract;
      }
      var typeName := node.name;
      if typeName in extensions {
        return Duplicate;
      }
      extensions := extensions + {typeName};
      AddToPoints(typeName, node);
      verdict := Indexed;
    }

    method PreProcessExtension(element: Element) returns (verdict: Verdict)
      modifies this
      ensures verdict == PreProcessVerdict(old(extensions), element)
      ensures extensions == Record(old(extensions), element)
      ensures extensionPoints == Index(old(extensions), old(extensionPoints), element)
    {
      if element.TypeElement? {
        if element.node.extensionPoint && IsInterfaceNested(element.node.interfaces, ExtensionTypeName) {
          return BothRoles;
        }
      }
      verdict := ProcessExtension(element);
    }

    /** `process` for one round. The first loop skips annotation types; the second visits the elements of each
        annotation type that is itself annotated `@Extension`. Returns the resources written, from path to
        the names in the order they were written. */
    method Process(processingOver: bool, annotated: seq<Element>, metaAnnotated: seq<seq<Element>>, failing: set<string>)
      returns (written: map<string, seq<string>>, failed: bool)
      modifies this
      ensures processingOver ==> written == map[] && extensions == old(extensions) && extensionPoints == old(extensionPoints)
      ensures processingOver ==> !failed
      ensures !processingOver ==> Emitted(extensionPoints, failing, written, failed)
      ensures !processingOver ==> (extensions, extensionPoints) == Round(annotated, metaAnnotated)
    {
      if processingOver {
        return map[], false;
      }
      extensions := {};
      extensionPoints := map[];
      var i := 0;
      while i < |annotated|
        invariant 0 <= i <= |annotated|
        invariant (extensions, extensionPoints) == IndexAll({}, map[], annotated[..i], true)
      {
        var element := annotated[i];
        IndexAllSnoc({}, map[], annotated[..i], element, true);
        assert annotated[..i + 1] == annotated[..i] + [element];
        if element.TypeElement? && element.annotationType {
          i := i + 1;
          continue;
        }
        var _ := PreProcessExtension(element);
        i := i + 1;
      }
      assert annotated[..i] == annotated;
      var j := 0;
      while j < |metaAnnotated|
        invariant 0 <= j <= |metaAnnotated|
        invariant (extensions, extensionPoints) == IndexNested(IndexAll({}, map[], annotated, true), metaAnnotated[..j])
      {
        var elements := metaAnnotated[j];
        ghost var before := (extensions, extensionPoints);
        var n := 0;
        while n < |elements|
          invariant 0 <= n <= |elements|
          invariant (extensions, extensionPoints) == IndexAll(before.0, before.1, elements[..n], false)
        {
          IndexAllSnoc(before.0, before.1, elements[..n], elements[n], false);
          assert elements[..n + 1] == elements[..n] + [elements[n]];
          var _ := PreProcessExtension(elements[n]);
          n := n + 1;
        }
        assert elements[..n] == elements;
        assert metaAnnotated[..j + 1][..j] == metaAnnotated[..j];
        j := j + 1;
      }
      assert metaAnnotated[..j] == metaAnnotated;
      written, failed := Emit(failing);
    }

    /** Writes every non-empty bucket, each name followed by a line break, until creating or writing a
        resource throws an `IOException`: the one `try` around the loop then ends the emission and `failed`
        reports it. `failing` are the extension points whose resource throws. */
    method Emit(failing: set<string>) returns (written: map<string, seq<string>>, failed: bool)
      ensures Emitted(extensionPoints, failing, written, failed)
    {
      written := map[];
      failed := false;
      var keys := extensionPoints.Keys;
      while keys != {}
        invariant keys <= extensionPoints.Keys
        invariant written.Keys == set k | k in extensionPoints && k !in keys && extensionPoints[k] != {} :: ExtensionPath(k)
        invariant forall k :: k in extensionPoints && k !in keys && extensionPoints[k] != {} ==>
                    k !in failing && Enumerates(written[ExtensionPath(k)], extensionPoints[k])
        decreases keys
      {
        var key :| key in keys;
        keys := keys - {key};
        if extensionPoints[key] == {} {
          continue;
        }
        if key in failing {
          failed := true;
          EmittedSoFar(extensionPoints, failing, keys + {key}, written);
          return;
        }
        var lines := EnumerateBucket(extensionPoints[key]);
        forall k | k in extensionPoints && k !in keys && extensionPoints[k] != {} && k != key
          ensures ExtensionPath(k) != ExtensionPath(key)
        {
          if ExtensionPath(k) == ExtensionPath(key) { ExtensionPathInjective(k, key); }
        }
        written := written[ExtensionPath(key) := lines];
      }
      EmittedSoFar(extensionPoints, failing, {}, written);
    }
  }

  /** The resource paths of the non-empty buckets. */
  function Resources(points: map<string, set<string>>): set<string> {
    set k | k in points && points[k] != {} :: ExtensionPath(k)
  }

  /** What an emission over `points` leaves behind when the buckets `failing` throw: it fails exactly when some
      non-empty bucket throws; it writes only resources of non-empty buckets, each listing its bucket and none
      for a bucket that throws; and when it does not fail it writes all of them. */
  ghost predicate Emitted(points: map<string, set<string>>, failing: set<string>, written: map<string, seq<string>>, failed: bool) {
    && (failed <==> exists k :: k in points && points[k] != {} && k in failing)
    && written.Keys <= Resources(points)
    && (!failed ==> written.Keys == Resources(points))
    && forall k :: k in points && points[k] != {} && ExtensionPath(k) in written ==>
         k !in failing && Enumerates(written[ExtensionPath(k)], points[k])
  }

  /** The emission loop's state, once the buckets `keys` are left, meets `Emitted` for the outcome it reports. */
  lemma EmittedSoFar(points: map<string, set<string>>, failing: set<string>, keys: set<string>, written: map<string, seq<string>>)
    requires keys <= points.Keys
    requires written.Keys == set k | k in points && k !in keys && points[k] != {} :: ExtensionPath(k)
    requires forall k :: k in points && k !in keys && points[k] != {} ==> k !in failing && Enumerates(written[ExtensionPath(k)], points[k])
    requires keys == {} || exists k :: k in keys && points[k] != {} && k in failing
    ensures Emitted(points, failing, written, keys != {})
  {
    forall k | k in points && points[k] != {} && ExtensionPath(k) in written
      ensures k !in keys
    {
      var j :| j in points && j !in keys && points[j] != {} && ExtensionPath(j) == ExtensionPath(k);
      ExtensionPathInjective(j, k);
    }
  }

  /** `lines` lists every name of `bucket` exactly once. */
  ghost predicate Enumerates(lines: seq<string>, bucket: set<string>) {
    && (forall i, j :: 0 <= i < j < |lines| ==> lines[i] != lines[j])
    && (forall x :: x in bucket <==> x in lines)
  }

  /** The iteration over a bucket; the order is the hash set's and is left open. */
  method EnumerateBucket(bucket: set<string>) returns (lines: seq<string>)
    ensures Enumerates(lines, bucket)
  {
    lines := [];
    var rest := bucket;
    while rest != {}
      invariant rest <= bucket
      invariant forall i, j :: 0 <= i < j < |lines| ==> lines[i] != lines[j]
      invariant forall x :: x in bucket <==> x in lines || x in rest
      invariant forall x :: x in rest ==> x !in lines
      decreases rest
    {
      var value :| value in rest;
      rest := rest - {value};
      lines := lines + [value];
    }
  }

  /** The names and buckets after pre-processing `elements` in order; `skipAnnotationTypes` is the first loop's filter. */
  function IndexAll(extensions: set<string>, points: map<string, set<string>>, elements: seq<Element>, skipAnnotationTypes: bool)
    : (set<string>, map<string, set<string>>)
    decreases |elements|
  {
    if elements == [] then (extensions, points)
    else
      var (e, p) := IndexAll(extensions, points, elements[..|elements| - 1], skipAnnotationTypes);
      var element := elements[|elements| - 1];
      if skipAnnotationTypes && element.TypeElement? && element.annotationType then (e, p)
      else (Record(e, element), Index(e, p, element))
  }

  lemma IndexAllSnoc(extensions: set<string>, points: map<string, set<string>>, elements: seq<Element>, element: Element, skip: bool)
    ensures IndexAll(extensions, points, elements + [element], skip) ==
      var (e, p) := IndexAll(extensions, points, elements, skip);
      if skip && element.TypeElement? && element.annotationType then (e, p) else (Record(e, element), Index(e, p, element))
  {
    assert (elements + [element])[..|elements|] == elements;
  }

  function IndexNested(state: (set<string>, map<string, set<string>>), groups: seq<seq<Element>>): (set<string>, map<string, set<string>>)
    decreases |groups|
  {
    if groups == [] then state
    else
      var before := IndexNested(state, groups[..|groups| - 1]);
      IndexAll(before.0, before.1, groups[|groups| - 1], false)
  }

  /** The state a non-final round ends in: it starts from no names and no buckets. */
  function Round(annotated: seq<Element>, metaAnnotated: seq<seq<Element>>): (set<string>, map<string, set<string>>)
  {
    IndexNested(IndexAll({}, map[], annotated, true), metaAnnotated)
  }

  /*
   * What a round's buckets hold
   */

  /** `preProcessExtension` indexes `element` when its name is not yet processed. */
  predicate Eligible(element: Element) {
    PreProcessVerdict({}, element) == Indexed
  }

  /** The types `elements` contribute, in any order: the eligible ones, minus annotation types in the first loop. */
  function EligibleNodes(elements: seq<Element>, skipAnnotationTypes: bool): set<TypeNode>
    decreases |elements|
  {
    if elements == [] then {}
    else
      var element := elements[|elements| - 1];
      EligibleNodes(elements[..|elements| - 1], skipAnnotationTypes) +
      (if Eligible(element) && !(skipAnnotationTypes && element.annotationType) then {element.node} else {})
  }

  function NestedNodes(groups: seq<seq<Element>>): set<TypeNode>
    decreases |groups|
  {
    if groups == [] then {} else NestedNodes(groups[..|groups| - 1]) + EligibleNodes(groups[|groups| - 1], false)
  }

  /** The types a round indexes. */
  function RoundNodes(annotated: seq<Element>, metaAnnotated: seq<seq<Element>>): set<TypeNode> {
    EligibleNodes(annotated, true) + NestedNodes(metaAnnotated)
  }

  function Names(indexed: set<TypeNode>): set<string> {
    set t | t in indexed :: t.name
  }

  /** The names of the types of `indexed` that are filed under extension point `k`. */
  function Filed(indexed: set<TypeNode>, k: string): set<string> {
    set t | t in indexed && k in AllTargets(t) :: t.name
  }

  /** The processed names and the buckets are those of the types `indexed`, and no bucket is empty. */
  ghost predicate Holds(state: (set<string>, map<string, set<string>>), indexed: set<TypeNode>) {
    && state.0 == Names(indexed)
    && (forall k :: Bucket(state.1, k) == Filed(indexed, k))
    && (forall k :: k in state.1 ==> state.1[k] != {})
  }

  /** Every type of `s`, and every type its walk sees, belongs to `universe`. */
  ghost predicate Within(s: set<TypeNode>, universe: set<TypeNode>) {
    forall t :: t in s ==> t in universe && ChainNodes(t) <= universe
  }

  /** Every type element of `elements`, and every type its walk sees, belongs to `universe`. */
  ghost predicate Covers(universe: set<TypeNode>, elements: seq<Element>) {
    forall i :: 0 <= i < |elements| && elements[i].TypeElement? ==>
      elements[i].node in universe && ChainNodes(elements[i].node) <= universe
  }

  lemma {:induction false} AllTargetsArePoints(t: TypeNode, x: string) returns (a: TypeNode)
    requires x in AllTargets(t)
    ensures a in ChainNodes(t) && IsPoint(a) && a.name == x
    decreases t
  {
    if x in TargetsQ(t.interfaces) {
      TargetsArePoints(t.interfaces, x);
      a :| a in NodesQ(t.interfaces) && IsPoint(a) && a.name == x;
    } else {
      a := AllTargetsArePoints(t.superclass.value, x);
    }
  }

  lemma FiledAdd(indexed: set<TypeNode>, t: TypeNode, k: string)
    ensures Filed(indexed + {t}, k) == Filed(indexed, k) + (if k in AllTargets(t) then {t.name} else {})
  {
  }

  /** While `Holds`, a type of the universe that names a bucket is an extension point. */
  lemma HoldsKeysArePoints(state: (set<string>, map<string, set<string>>), indexed: set<TypeNode>, universe: set<TypeNode>)
    requires Consistent(universe) && Within(indexed, universe) && Holds(state, indexed)
    ensures KeysArePoints(state.1, universe)
  {
    forall a | a in universe && a.name in state.1 ensures IsPoint(a) {
      assert Bucket(state.1, a.name) != {};
      var x :| x in Filed(indexed, a.name);
      var t :| t in indexed && a.name in AllTargets(t) && t.name == x;
      var b := AllTargetsArePoints(t, a.name);
      assert a == b;
    }
  }

  /** Adding a type's name and filing it under its extension points keeps `Holds`. */
  lemma HoldsAdd(state: (set<string>, map<string, set<string>>), indexed: set<TypeNode>, node: TypeNode)
    requires Holds(state, indexed)
    ensures Holds((state.0 + {node.name}, AddName(state.1, AllTargets(node), node.name)), indexed + {node})
  {
    var p' := AddName(state.1, AllTargets(node), node.name);
    forall k ensures Bucket(p', k) == Filed(indexed + {node}, k) {
      FiledAdd(indexed, node, k);
    }
    forall k | k in p' ensures p'[k] != {} {
      assert Bucket(p', k) == p'[k];
      if k !in AllTargets(node) {
        assert Bucket(state.1, k) == state.1[k];
      }
    }
    assert Names(indexed + {node}) == Names(indexed) + {node.name};
  }

  /** An indexed element adds its name and files it under its extension points. */
  lemma IndexedStep(state: (set<string>, map<string, set<string>>), indexed: set<TypeNode>, universe: set<TypeNode>, element: Element)
    requires Consistent(universe) && Within(indexed, universe) && Holds(state, indexed)
    requires element.TypeElement? && element.node in universe && ChainNodes(element.node) <= universe
    requires PreProcessVerdict(state.0, element) == Indexed
    ensures Holds((Record(state.0, element), Index(state.0, state.1, element)), indexed + {element.node})
  {
    var node := element.node;
    HoldsKeysArePoints(state, indexed, universe);
    assert KeysArePoints(state.1, ChainNodes(node)) && Consistent(ChainNodes(node));
    AddPointsFilesAllTargets(state.1, node.name, node);
    HoldsAdd(state, indexed, node);
  }

  /** One `preProcessExtension` call keeps `Holds`, adding the element's type when it is eligible. */
  lemma IndexStep(state: (set<string>, map<string, set<string>>), indexed: set<TypeNode>, universe: set<TypeNode>, element: Element)
    requires Consistent(universe) && Within(indexed, universe) && Holds(state, indexed)
    requires element.TypeElement? ==> element.node in universe && ChainNodes(element.node) <= universe
    ensures Holds((Record(state.0, element), Index(state.0, state.1, element)),
                  indexed + (if Eligible(element) then {element.node} else {}))
  {
    if PreProcessVerdict(state.0, element) == Indexed {
      IndexedStep(state, indexed, universe, element);
    } else {
      RejectedTouchesNothing(state.0, state.1, element);
      if Eligible(element) {
        var t :| t in indexed && t.name == element.node.name;
        assert t == element.node;
        assert indexed + {element.node} == indexed;
      }
    }
  }

  lemma {:induction false} IndexAllHolds(state: (set<string>, map<string, set<string>>), indexed: set<TypeNode>,
                                         universe: set<TypeNode>, elements: seq<Element>, skip: bool)
    requires Consistent(universe) && Within(indexed, universe) && Holds(state, indexed) && Covers(universe, elements)
    ensures Within(indexed + EligibleNodes(elements, skip), universe)
    ensures Holds(IndexAll(state.0, state.1, elements, skip), indexed + EligibleNodes(elements, skip))
    decreases |elements|
  {
    if elements != [] {
      var init := elements[..|elements| - 1];
      var element := elements[|elements| - 1];
      assert Covers(universe, init);
      IndexAllHolds(state, indexed, universe, init, skip);
      var before := IndexAll(state.0, state.1, init, skip);
      var s := indexed + EligibleNodes(init, skip);
      if !(skip && element.TypeElement? && element.annotationType) {
        IndexStep(before, s, universe, element);
        assert s + (if Eligible(element) then {element.node} else {}) == indexed + EligibleNodes(elements, skip);
      }
    }
  }

  lemma {:induction false} IndexNestedHolds(state: (set<string>, map<string, set<string>>), indexed: set<TypeNode>,
                                            universe: set<TypeNode>, groups: seq<seq<Element>>)
    requires Consistent(universe) && Within(indexed, universe) && Holds(state, indexed)
    requires forall j :: 0 <= j < |groups| ==> Covers(universe, groups[j])
    ensures Within(indexed + NestedNodes(groups), universe)
    ensures Holds(IndexNested(state, groups), indexed + NestedNodes(groups))
    decreases |groups|
  {
    if groups != [] {
      var init := groups[..|groups| - 1];
      IndexNestedHolds(state, indexed, universe, init);
      var before := IndexNested(state, init);
      IndexAllHolds(before, indexed + NestedNodes(init), universe, groups[|groups| - 1], false);
      assert indexed + NestedNodes(init) + EligibleNodes(groups[|groups| - 1], false) == indexed + NestedNodes(groups);
    }
  }

  /** When a qualified name denotes one type, a round's outcome does not depend on the order of the elements:
      the processed names are those of the eligible types, the bucket of extension point `k` holds exactly
      the eligible types that reach `k` through their interfaces or superclass chain, and no bucket is empty. */
  lemma {:induction false} RoundBuckets(annotated: seq<Element>, metaAnnotated: seq<seq<Element>>, universe: set<TypeNode>)
    requires Consistent(universe) && Covers(universe, annotated)
    requires forall j :: 0 <= j < |metaAnnotated| ==> Covers(universe, metaAnnotated[j])
    ensures Round(annotated, metaAnnotated).0 == Names(RoundNodes(annotated, metaAnnotated))
    ensures forall k :: Bucket(Round(annotated, metaAnnotated).1, k) == Filed(RoundNodes(annotated, metaAnnotated), k)
    ensures forall k :: k in Round(annotated, metaAnnotated).1 ==> Round(annotated, metaAnnotated).1[k] != {}
    ensures KeysArePoints(Round(annotated, metaAnnotated).1, universe)
  {
    var empty: set<TypeNode> := {};
    assert Names(empty) == {};
    assert Holds(({}, map[]), empty);
    IndexAllHolds(({}, map[]), empty, universe, annotated, true);
    IndexNestedHolds(IndexAll({}, map[], annotated, true), EligibleNodes(annotated, true), universe, metaAnnotated);
    HoldsKeysArePoints(Round(annotated, metaAnnotated), RoundNodes(annotated, metaAnnotated), universe);
  }

  /*
   * The emitted resource
   */

  /** What the writer produces for one bucket: every name followed by `'\n'`. */
  function Render(lines: seq<string>): string
  {
    if lines == [] then [] else lines[0] + "\n" + Render(lines[1..])
  }

  /** A qualified type name: not blank and free of line breaks. */
  predicate ValidName(n: string) {
    !IsBlank(n) && forall i :: 0 <= i < |n| ==> !IsLineBreak(n[i])
  }

  lemma LineEndOfName(n: string, rest: string)
    requires forall i :: 0 <= i < |n| ==> !IsLineBreak(n[i])
    ensures LineEnd(n + "\n" + rest) == |n|
    decreases |n|
  {
    if n != [] {
      assert (n + "\n" + rest)[1..] == n[1..] + "\n" + rest;
      LineEndOfName(n[1..], rest);
    }
  }

  /** Reading an emitted resource line by line gives back the written names, so it holds no blank line and
      the reader, which stops at the first blank line, sees every name. */
  lemma {:induction false} ReadBackRender(lines: seq<string>)
    requires forall i :: 0 <= i < |lines| ==> ValidName(lines[i])
    ensures ReadLines(Render(lines)) == lines
    ensures forall i :: 0 <= i < |ReadLines(Render(lines))| ==> !IsBlank(ReadLines(Render(lines))[i])
    decreases |lines|
  {
    if lines != [] {
      var s := Render(lines);
      var n := lines[0];
      LineEndOfName(n, Render(lines[1..]));
      assert s == n + "\n" + Render(lines[1..]);
      assert s[..|n|] == n;
      assert s[|n| + 1..] == Render(lines[1..]);
      ReadBackRender(lines[1..]);
    }
  }
}
