/**
 * The check that an execution context can be stored as JSON, over an arbitrary object graph
 * (packages/core/src/core/execution-context/validator.ts:28-100).  Objects have identities, so a graph
 * may share objects and run in circles; one set of seen objects is shared by all recursive calls.
 */
module JsonValidator {
  import opened Common

  type Ref = nat

  datatype Value =
    | Undefined
    | Null
    | Text(s: string)
    | Bool(b: bool)
    | Number(finite: bool)
    | BigInt
    | Symbol
    | Function
    | Object(ref: Ref)

  datatype Node =
    | Array(elements: seq<Value>)
    | Plain(fields: seq<(string, Value)>)
    | Date
    | RegExp
    | Instance

  type Heap = Ref -> Node

  datatype Reason = IsUndefined | NotFinite | Unsupported | TooDeep | Circular | ClassInstance

  /** A path is the sequence of positions among the checked children. */
  type Path = seq<nat>

  datatype Fault = Fault(path: Path, reason: Reason)

  const MAX_DEPTH := 100

  // ---------------------------------------------------------------- the graph

  function IfDefined(v: Value): seq<Value> {
    if v.Undefined? then [] else [v]
  }

  /** The values of an object's fields from the i-th on, without the undefined ones. */
  function Defined(fields: seq<(string, Value)>, i: nat): seq<Value>
    decreases |fields| - i
  {
    if i >= |fields| then [] else IfDefined(fields[i].1) + Defined(fields, i + 1)
  }

  function Children(node: Node): seq<Value> {
    match node
    case Array(elements) => elements
    case Plain(fields) => Defined(fields, 0)
    case _ => []
  }

  /** The children of a plain object are the values of its fields that are not undefined, each once and in order. */
  lemma {:induction false} DefinedMeaning(fields: seq<(string, Value)>, i: nat) returns (from: seq<nat>)
    ensures |from| == |Defined(fields, i)|
    ensures forall k :: 0 <= k < |from| ==>
      i <= from[k] < |fields| && Defined(fields, i)[k] == fields[from[k]].1 && Defined(fields, i)[k] != Undefined
    ensures forall j, k :: 0 <= j < k < |from| ==> from[j] < from[k]
    ensures forall j :: i <= j < |fields| && fields[j].1 != Undefined ==> j in from
    decreases |fields| - i
  {
    if i >= |fields| {
      from := [];
    } else {
      from := DefinedMeaning(fields, i + 1);
      var (all, rest) := (Defined(fields, i), Defined(fields, i + 1));
      if fields[i].1 == Undefined {
        assert all == rest;
      } else {
        assert all == [fields[i].1] + rest;
        hide Defined;
        from := [i] + from;
      }
    }
  }

  /** An array has its elements for children, a plain object its defined values, and nothing else has any. */
  lemma ChildrenMeaning(node: Node) returns (from: seq<nat>)
    ensures node.Array? ==> Children(node) == node.elements
    ensures !node.Array? && !node.Plain? ==> Children(node) == []
    ensures node.Plain? ==>
      && |from| == |Children(node)| && (forall j, k :: 0 <= j < k < |from| ==> from[j] < from[k])
      && (forall k :: 0 <= k < |from| ==> from[k] < |node.fields| && Children(node)[k] == node.fields[from[k]].1)
      && forall j :: 0 <= j < |node.fields| ==> (j in from <==> node.fields[j].1 != Undefined)
  {
    from := [];
    if node.Plain? {
      from := DefinedMeaning(node.fields, 0);
    }
  }

  /** The value a path leads to. */
  function Follow(heap: Heap, v: Value, path: Path): Option<Value>
    decreases |path|
  {
    if path == [] then Some(v)
    else if v.Object? then FollowIn(heap, Children(heap(v.ref)), path)
    else None
  }

  function FollowIn(heap: Heap, children: seq<Value>, path: Path): Option<Value>
    requires path != []
    decreases |path|, 0
  {
    if path[0] < |children| then Follow(heap, children[path[0]], path[1..]) else None
  }

  /** Dates and regular expressions count as leaves. */
  predicate Container(heap: Heap, v: Value) {
    v.Object? && !heap(v.ref).Date? && !heap(v.ref).RegExp?
  }

  /** What may stand at any place: null, a text, a boolean, a finite number, or an object that is no class instance. */
  predicate Fine(heap: Heap, v: Value) {
    v.Null? || v.Text? || v.Bool? || (v.Number? && v.finite) || (v.Object? && !heap(v.ref).Instance?)
  }

  // ---------------------------------------------------------------- the check

  function Left(depth: nat): nat {
    if depth > MAX_DEPTH then 0 else MAX_DEPTH + 1 - depth
  }

  /** The first fault, if any, and the objects seen. */
  function Check(heap: Heap, v: Value, path: Path, seen: set<Ref>, depth: nat): (Option<Fault>, set<Ref>)
    decreases Left(depth), 0, 0
  {
    match v
    case Null | Text(_) | Bool(_) => (None, seen)
    case Undefined => (Some(Fault(path, IsUndefined)), seen)
    case Number(finite) => (if finite then None else Some(Fault(path, NotFinite)), seen)
    case BigInt | Symbol | Function => (Some(Fault(path, Unsupported)), seen)
    case Object(ref) =>
      if !Container(heap, v) then (None, seen)
      else if depth > MAX_DEPTH then (Some(Fault(path, TooDeep)), seen)
      else if ref in seen then (Some(Fault(path, Circular)), seen)
      else if heap(ref).Instance? then (Some(Fault(path, ClassInstance)), seen + {ref})
      else CheckAll(heap, Children(heap(ref)), 0, path, seen + {ref}, depth + 1)
  }

  function CheckAll(heap: Heap, children: seq<Value>, i: nat, path: Path, seen: set<Ref>, depth: nat): (Option<Fault>, set<Ref>)
    requires i <= |children|
    decreases Left(depth), 1, |children| - i
  {
    if i == |children| then (None, seen)
    else
      var (fault, seen') := Check(heap, children[i], path + [i], seen, depth);
      if fault.Some? then (fault, seen') else CheckAll(heap, children, i + 1, path, seen', depth)
  }

  /** The set of seen objects that all recursive calls share. */
  class SeenSet {
    var members: set<Ref>

    constructor ()
      ensures members == {}
    {
      members := {};
    }
  }

  /** The recursive check with its loops; it ends on cyclic graphs because of the depth. */
  method AssertJsonSerializable(heap: Heap, value: Value, path: Path, seen: SeenSet, depth: nat) returns (fault: Option<Fault>)
    modifies seen
    ensures (fault, seen.members) == Check(heap, value, path, old(seen.members), depth)
    decreases Left(depth)
  {
    match value {
      case Null => return None;
      case Undefined => return Some(Fault(path, IsUndefined));
      case Text(_) => return None;
      case Bool(_) => return None;
      case Number(finite) => return if finite then None else Some(Fault(path, NotFinite));
      case BigInt => return Some(Fault(path, Unsupported));
      case Symbol => return Some(Fault(path, Unsupported));
      case Function => return Some(Fault(path, Unsupported));
      case Object(ref) =>
        var node := heap(ref);
        if node.Date? || node.RegExp? {
          return None;
        }
        if depth > MAX_DEPTH {
          return Some(Fault(path, TooDeep));
        }
        if ref in seen.members {
          return Some(Fault(path, Circular));
        }
        seen.members := seen.members + {ref};
        ghost var start := seen.members;
        match node {
          case Array(elements) =>
            for i := 0 to |elements|
              invariant CheckAll(heap, elements, i, path, seen.members, depth + 1)
                     == CheckAll(heap, elements, 0, path, start, depth + 1)
            {
              fault := AssertJsonSerializable(heap, elements[i], path + [i], seen, depth + 1);
              if fault.Some? {
                return;
              }
            }
            return None;
          case Plain(fields) =>
            var children := Defined(fields, 0);
            var k := 0;
            for i := 0 to |fields|
              invariant k <= |children| && children[k..] == Defined(fields, i)
              invariant CheckAll(heap, children, k, path, seen.members, depth + 1)
                     == CheckAll(heap, children, 0, path, start, depth + 1)
            {
              var v := fields[i].1;
              if v.Undefined? {
                continue;
              }
              assert children[k] == children[k..][0] == v && children[k + 1..] == children[k..][1..];
              fault := AssertJsonSerializable(heap, v, path + [k], seen, depth + 1);
              if fault.Some? {
                return;
              }
              k := k + 1;
            }
            return None;
          case Instance =>
            return Some(Fault(path, ClassInstance));
        }
    }
  }

  // ---------------------------------------------------------------- what is accepted

  /** The path leads to a container, which is the object r. */
  predicate Leads(heap: Heap, v: Value, path: Path, r: Ref) {
    Follow(heap, v, path) == Some(Object(r)) && (heap(r).Array? || heap(r).Plain? || heap(r).Instance?)
  }

  ghost predicate Holds(heap: Heap, v: Value, r: Ref) {
    exists path :: Leads(heap, v, path, r)
  }

  ghost predicate AllFine(heap: Heap, v: Value) {
    forall path | Follow(heap, v, path).Some? :: Fine(heap, Follow(heap, v, path).value)
  }

  /** No container is deeper than a hundred steps when v itself is at the given depth. */
  ghost predicate Shallow(heap: Heap, v: Value, depth: nat) {
    forall path, r | Leads(heap, v, path, r) :: depth + |path| <= 100
  }

  /** No two paths lead to the same container, so nothing is shared and nothing runs in a circle. */
  ghost predicate Unshared(heap: Heap, v: Value) {
    forall p, q, r | Leads(heap, v, p, r) && Leads(heap, v, q, r) :: p == q
  }

  ghost predicate Unmet(heap: Heap, v: Value, seen: set<Ref>) {
    forall path, r | Leads(heap, v, path, r) :: r !in seen
  }

  /** From v down everything is fine, and the containers form a tree of new objects not too deep. */
  ghost predicate Tree(heap: Heap, v: Value, seen: set<Ref>, depth: nat) {
    AllFine(heap, v) && Shallow(heap, v, depth) && Unmet(heap, v, seen) && Unshared(heap, v)
  }

  predicate LeadsIn(heap: Heap, children: seq<Value>, path: Path, r: Ref) {
    path != [] && FollowIn(heap, children, path) == Some(Object(r)) && Container(heap, Object(r))
  }

  /** The same for the children from position i on, whose own depth is given. */
  ghost predicate Forest(heap: Heap, children: seq<Value>, i: nat, seen: set<Ref>, depth: nat) {
    && (forall path | path != [] && path[0] >= i && FollowIn(heap, children, path).Some? ::
          Fine(heap, FollowIn(heap, children, path).value))
    && (forall path, r | LeadsIn(heap, children, path, r) && path[0] >= i :: depth + |path| <= MAX_DEPTH + 1 && r !in seen)
    && (forall p, q, r | LeadsIn(heap, children, p, r) && LeadsIn(heap, children, q, r) && p[0] >= i && q[0] >= i :: p == q)
  }

  ghost predicate HoldsIn(heap: Heap, children: seq<Value>, i: nat, r: Ref) {
    exists path :: LeadsIn(heap, children, path, r) && path[0] >= i
  }

  lemma TreeOfForest(heap: Heap, ref: Ref, seen: set<Ref>, depth: nat)
    requires Container(heap, Object(ref)) && !heap(ref).Instance?
    ensures Tree(heap, Object(ref), seen, depth)
       <==> depth <= MAX_DEPTH && ref !in seen && Forest(heap, Children(heap(ref)), 0, seen + {ref}, depth + 1)
    ensures forall r :: Holds(heap, Object(ref), r) <==> r == ref || HoldsIn(heap, Children(heap(ref)), 0, r)
  {
    var v, children := Object(ref), Children(heap(ref));
    assert Leads(heap, v, [], ref);
    assert forall path: Path, r | path != [] :: Leads(heap, v, path, r) <==> LeadsIn(heap, children, path, r);
    forall r ensures Holds(heap, v, r) <==> r == ref || HoldsIn(heap, children, 0, r) {
      if path :| Leads(heap, v, path, r) && r != ref { assert LeadsIn(heap, children, path, r); }
      if path :| LeadsIn(heap, children, path, r) { assert Leads(heap, v, path, r); }
    }
    if Tree(heap, v, seen, depth) {
      forall path | path != [] && FollowIn(heap, children, path).Some? ensures Fine(heap, FollowIn(heap, children, path).value) {
        assert Follow(heap, v, path) == FollowIn(heap, children, path);
      }
    }
    if depth <= MAX_DEPTH && ref !in seen && Forest(heap, children, 0, seen + {ref}, depth + 1) {
      forall path | Follow(heap, v, path).Some? ensures Fine(heap, Follow(heap, v, path).value) {
        if path != [] { assert Follow(heap, v, path) == FollowIn(heap, children, path); }
      }
    }
  }

  /** The first child and the rest, once the containers below the first are marked as seen. */
  lemma ForestOfTrees(heap: Heap, children: seq<Value>, i: nat, seen: set<Ref>, seen': set<Ref>, depth: nat)
    requires i < |children|
    requires forall r :: r in seen' <==> r in seen || Holds(heap, children[i], r)
    ensures Forest(heap, children, i, seen, depth)
       <==> Tree(heap, children[i], seen, depth) && Forest(heap, children, i + 1, seen', depth)
    ensures forall r :: HoldsIn(heap, children, i, r) <==> Holds(heap, children[i], r) || HoldsIn(heap, children, i + 1, r)
  {
    var c := children[i];
    forall path: Path ensures FollowIn(heap, children, [i] + path) == Follow(heap, c, path)
      ensures forall r :: LeadsIn(heap, children, [i] + path, r) <==> Leads(heap, c, path, r)
    {
      assert ([i] + path)[1..] == path;
    }
    forall path: Path | path != [] && path[0] == i ensures path == [i] + path[1..] {
    }
    SplitHolds(heap, children, i);
    if Forest(heap, children, i, seen, depth) {
      FirstTree(heap, children, i, seen, depth);
      forall path, r | LeadsIn(heap, children, path, r) && path[0] >= i + 1 ensures r !in seen' {
        if Holds(heap, c, r) { SharedChild(heap, children, i, seen, depth, path, r); }
      }
    }
    if Tree(heap, c, seen, depth) && Forest(heap, children, i + 1, seen', depth) {
      WholeForest(heap, children, i, seen, seen', depth);
    }
  }

  lemma SharedChild(heap: Heap, children: seq<Value>, i: nat, seen: set<Ref>, depth: nat, path: Path, r: Ref)
    requires i < |children| && Holds(heap, children[i], r) && LeadsIn(heap, children, path, r) && path[0] > i
    ensures !Forest(heap, children, i, seen, depth)
  {
    var p :| Leads(heap, children[i], p, r);
    assert ([i] + p)[1..] == p;
    assert LeadsIn(heap, children, [i] + p, r) && [i] + p != path;
  }

  lemma SplitHolds(heap: Heap, children: seq<Value>, i: nat)
    requires i < |children|
    ensures forall r :: HoldsIn(heap, children, i, r) <==> Holds(heap, children[i], r) || HoldsIn(heap, children, i + 1, r)
  {
    forall r ensures HoldsIn(heap, children, i, r) <==> Holds(heap, children[i], r) || HoldsIn(heap, children, i + 1, r) {
      if path :| LeadsIn(heap, children, path, r) && path[0] >= i {
        if path[0] == i { assert Leads(heap, children[i], path[1..], r); }
      }
      if path :| Leads(heap, children[i], path, r) {
        assert ([i] + path)[1..] == path;
        assert LeadsIn(heap, children, [i] + path, r);
      }
    }
  }

  lemma FirstTree(heap: Heap, children: seq<Value>, i: nat, seen: set<Ref>, depth: nat)
    requires i < |children| && Forest(heap, children, i, seen, depth)
    ensures Tree(heap, children[i], seen, depth)
  {
    var c := children[i];
    forall path: Path ensures FollowIn(heap, children, [i] + path) == Follow(heap, c, path)
    {
      assert ([i] + path)[1..] == path;
    }
    forall path | Follow(heap, c, path).Some? ensures Fine(heap, Follow(heap, c, path).value) {
      assert ([i] + path)[0] == i && FollowIn(heap, children, [i] + path) == Follow(heap, c, path);
    }
    forall path, r | Leads(heap, c, path, r) ensures depth + |path| <= MAX_DEPTH && r !in seen {
      assert LeadsIn(heap, children, [i] + path, r);
    }
    forall p, q, r | Leads(heap, c, p, r) && Leads(heap, c, q, r) ensures p == q {
      assert LeadsIn(heap, children, [i] + p, r) && LeadsIn(heap, children, [i] + q, r);
      assert ([i] + p)[1..] == p && ([i] + q)[1..] == q;
    }
  }

  lemma WholeForest(heap: Heap, children: seq<Value>, i: nat, seen: set<Ref>, seen': set<Ref>, depth: nat)
    requires i < |children|
    requires forall r :: r in seen' <==> r in seen || Holds(heap, children[i], r)
    requires Tree(heap, children[i], seen, depth) && Forest(heap, children, i + 1, seen', depth)
    ensures Forest(heap, children, i, seen, depth)
  {
    var c := children[i];
    forall path: Path | path != [] && path[0] >= i && FollowIn(heap, children, path).Some?
      ensures Fine(heap, FollowIn(heap, children, path).value)
    {
      if path[0] == i { assert FollowIn(heap, children, path) == Follow(heap, c, path[1..]); }
    }
    forall path, r | LeadsIn(heap, children, path, r) && path[0] >= i
      ensures depth + |path| <= MAX_DEPTH + 1 && r !in seen
    {
      if path[0] == i { assert Leads(heap, c, path[1..], r); }
    }
    forall p, q, r | LeadsIn(heap, children, p, r) && LeadsIn(heap, children, q, r) && p[0] >= i && q[0] >= i ensures p == q {
      if p[0] == i { assert Leads(heap, c, p[1..], r); }
      if q[0] == i { assert Leads(heap, c, q[1..], r); }
      if p[0] == i && q[0] == i {
        assert p == [i] + p[1..] && q == [i] + q[1..];
      }
    }
  }

  lemma LeafIsTree(heap: Heap, v: Value, seen: set<Ref>, depth: nat)
    requires !Container(heap, v)
    ensures Tree(heap, v, seen, depth) <==> Fine(heap, v)
    ensures forall r :: !Holds(heap, v, r)
  {
    forall path | path != [] ensures Follow(heap, v, path).None? {
    }
    assert Follow(heap, v, []) == Some(v);
  }

  /** A container that is too deep, was met before or is a class instance is no tree, whatever is below it. */
  lemma BarredIsNoTree(heap: Heap, ref: Ref, seen: set<Ref>, depth: nat)
    requires Container(heap, Object(ref)) && (depth > MAX_DEPTH || ref in seen || heap(ref).Instance?)
    ensures !Tree(heap, Object(ref), seen, depth)
  {
    assert Leads(heap, Object(ref), [], ref);
    assert Follow(heap, Object(ref), []) == Some(Object(ref));
  }

  lemma {:induction false} CheckIsTree(heap: Heap, v: Value, path: Path, seen: set<Ref>, depth: nat)
    ensures Check(heap, v, path, seen, depth).0.None? <==> Tree(heap, v, seen, depth)
    ensures Check(heap, v, path, seen, depth).0.None? ==>
      forall r :: r in Check(heap, v, path, seen, depth).1 <==> r in seen || Holds(heap, v, r)
    decreases Left(depth), 0, 0
  {
    hide Tree, Forest, Holds, HoldsIn, Follow, FollowIn;
    if !Container(heap, v) {
      LeafIsTree(heap, v, seen, depth);
    } else if depth > MAX_DEPTH || v.ref in seen || heap(v.ref).Instance? {
      BarredIsNoTree(heap, v.ref, seen, depth);
    } else {
      TreeOfForest(heap, v.ref, seen, depth);
      CheckAllIsForest(heap, Children(heap(v.ref)), 0, path, seen + {v.ref}, depth + 1);
    }
  }

  lemma {:induction false} CheckAllIsForest(heap: Heap, children: seq<Value>, i: nat, path: Path, seen: set<Ref>, depth: nat)
    requires i <= |children|
    ensures CheckAll(heap, children, i, path, seen, depth).0.None? <==> Forest(heap, children, i, seen, depth)
    ensures CheckAll(heap, children, i, path, seen, depth).0.None? ==>
      forall r :: r in CheckAll(heap, children, i, path, seen, depth).1 <==> r in seen || HoldsIn(heap, children, i, r)
    decreases Left(depth), 1, |children| - i
  {
    if i < |children| {
      hide Tree, Forest, Holds, HoldsIn, Follow, FollowIn, Check;
      CheckIsTree(heap, children[i], path + [i], seen, depth);
      var (fault, seen') := Check(heap, children[i], path + [i], seen, depth);
      if fault.None? {
        ForestOfTrees(heap, children, i, seen, seen', depth);
        CheckAllIsForest(heap, children, i + 1, path, seen', depth);
      } else {
        NoFirstTree(heap, children, i, seen, depth);
      }
    }
  }

  lemma NoFirstTree(heap: Heap, children: seq<Value>, i: nat, seen: set<Ref>, depth: nat)
    requires i < |children| && !Tree(heap, children[i], seen, depth)
    ensures !Forest(heap, children, i, seen, depth)
  {
    hide Tree, Forest;
    if Forest(heap, children, i, seen, depth) { FirstTree(heap, children, i, seen, depth); }
  }

  /**
   * On every object graph, cyclic ones included: the check accepts exactly the values whose leaves are null,
   * texts, booleans, finite numbers, dates and regular expressions, and whose containers form a tree not
   * deeper than the limit.
   */
  lemma AcceptsExactlyTrees(heap: Heap, v: Value)
    ensures Check(heap, v, [], {}, 0).0.None? <==> AllFine(heap, v) && Shallow(heap, v, 0) && Unshared(heap, v)
  {
    hide AllFine, Shallow, Unshared, Check;
    CheckIsTree(heap, v, [], {}, 0);
  }

  /** No graph with a circle in it is accepted. */
  lemma CirclesRejected(heap: Heap, v: Value, p: Path, q: Path, r: Ref)
    requires q != [] && Leads(heap, v, p, r) && Leads(heap, Object(r), q, r)
    ensures Check(heap, v, [], {}, 0).0.Some?
  {
    FollowFurther(heap, v, p, q);
    assert Leads(heap, v, p + q, r);
    assert |p + q| > |p|;
    AcceptsExactlyTrees(heap, v);
  }

  lemma {:induction false} FollowFurther(heap: Heap, v: Value, p: Path, q: Path)
    requires Follow(heap, v, p).Some?
    ensures Follow(heap, v, p + q) == Follow(heap, Follow(heap, v, p).value, q)
    decreases |p|
  {
    if p == [] {
      assert p + q == q;
    } else {
      var c := Children(heap(v.ref))[p[0]];
      assert Follow(heap, v, p) == Follow(heap, c, p[1..]);
      FollowFurther(heap, c, p[1..], q);
      TailOfJoined(p, q);
      assert Follow(heap, v, p + q) == Follow(heap, c, (p + q)[1..]);
    }
  }

  lemma TailOfJoined<T>(p: seq<T>, q: seq<T>)
    requires p != []
    ensures (p + q)[0] == p[0] && (p + q)[1..] == p[1..] + q
  {
  }

  // ---------------------------------------------------------------- what is blamed

  /** The order in which the check comes to the values: parents first, children from left to right. */
  predicate Before(a: Path, b: Path) {
    b != [] && (a == [] || a[0] < b[0] || (a[0] == b[0] && Before(a[1..], b[1..])))
  }

  /** Why the value at the end of a path cannot be stored; a shared or circular object was met before. */
  ghost predicate Blamed(heap: Heap, root: Value, path: Path, reason: Reason) {
    Follow(heap, root, path).Some? &&
    var v := Follow(heap, root, path).value;
    match reason
    case IsUndefined => v == Undefined
    case NotFinite => v == Number(false)
    case Unsupported => v.BigInt? || v.Symbol? || v.Function?
    case TooDeep => Container(heap, v) && |path| > 100
    case Circular => Container(heap, v) && MetBefore(heap, root, path, v.ref)
    case ClassInstance => v.Object? && heap(v.ref).Instance?
  }

  ghost predicate MetBefore(heap: Heap, root: Value, path: Path, r: Ref) {
    exists other :: Before(other, path) && Leads(heap, root, other, r)
  }

  ghost predicate BlamelessBefore(heap: Heap, root: Value, path: Path) {
    forall other, reason | Before(other, path) :: !Blamed(heap, root, other, reason)
  }

  /** When the check comes to a path, it has seen exactly the containers before it, and found no fault there. */
  ghost predicate Arrived(heap: Heap, root: Value, path: Path, seen: set<Ref>) {
    && (forall r :: r in seen <==> MetBefore(heap, root, path, r))
    && BlamelessBefore(heap, root, path)
  }

  lemma {:induction false} BeforeFirstChild(a: Path, path: Path)
    ensures Before(a, path + [0]) <==> Before(a, path) || a == path
  {
    if path != [] {
      assert (path + [0])[1..] == path[1..] + [0];
      if a != [] {
        BeforeFirstChild(a[1..], path[1..]);
        assert a == [a[0]] + a[1..] && path == [path[0]] + path[1..];
      }
    }
  }

  lemma {:induction false} BeforeNextSibling(a: Path, path: Path, i: nat)
    ensures Before(a, path + [i + 1]) <==> Before(a, path + [i]) || path + [i] <= a
  {
    if path == [] {
      assert a != [] ==> a[..1] == [a[0]];
    } else {
      assert (path + [i + 1])[1..] == path[1..] + [i + 1] && (path + [i])[1..] == path[1..] + [i];
      if a != [] {
        BeforeNextSibling(a[1..], path[1..], i);
        assert path + [i] <= a <==> path[0] == a[0] && path[1..] + [i] <= a[1..];
      }
    }
  }

  /** What is before a value below a path is before the path, or is at or below it too. */
  lemma {:induction false} BeforeBelow(a: Path, path: Path, p: Path)
    requires Before(a, path + p)
    ensures Before(a, path) || path <= a
  {
    if path != [] && a != [] {
      assert (path + p)[1..] == path[1..] + p;
      if a[0] == path[0] {
        BeforeBelow(a[1..], path[1..], p);
        assert path[1..] <= a[1..] ==> path <= a;
      }
    }
  }

  lemma {:induction false} NotBeforeItself(path: Path)
    ensures !Before(path, path)
  {
    if path != [] { NotBeforeItself(path[1..]); }
  }

  lemma ArrivedAtFirstChild(heap: Heap, root: Value, path: Path, seen: set<Ref>)
    requires Arrived(heap, root, path, seen) && Follow(heap, root, path).Some?
    requires var v := Follow(heap, root, path).value;
      Container(heap, v) && |path| <= MAX_DEPTH && v.ref !in seen && !heap(v.ref).Instance?
    ensures Arrived(heap, root, path + [0], seen + {Follow(heap, root, path).value.ref})
  {
    hide Before, Follow;
    var v := Follow(heap, root, path).value;
    forall a ensures Before(a, path + [0]) <==> Before(a, path) || a == path { BeforeFirstChild(a, path); }
    assert Leads(heap, root, path, v.ref);
    forall r ensures r in seen + {v.ref} <==> MetBefore(heap, root, path + [0], r) {
      if r == v.ref { assert Before(path, path + [0]); }
    }
    forall other, reason | Before(other, path + [0]) ensures !Blamed(heap, root, other, reason) {
    }
  }

  /** An accepted child leaves no fault behind, and everything below it seen. */
  lemma ArrivedAtNext(heap: Heap, root: Value, path: Path, i: nat, c: Value, seen: set<Ref>, seen': set<Ref>)
    requires Arrived(heap, root, path + [i], seen) && Follow(heap, root, path + [i]) == Some(c)
    requires Tree(heap, c, seen, |path| + 1)
    requires forall r :: r in seen' <==> r in seen || Holds(heap, c, r)
    ensures Arrived(heap, root, path + [i + 1], seen')
  {
    hide Before, Follow, Tree, Holds, MetBefore;
    var at := path + [i];
    forall a ensures Before(a, path + [i + 1]) <==> Before(a, at) || at <= a { BeforeNextSibling(a, path, i); }
    forall r ensures r in seen' <==> MetBefore(heap, root, path + [i + 1], r) {
      MetBeforeNext(heap, root, path, i, c, r);
    }
    forall other, reason | Before(other, path + [i + 1]) ensures !Blamed(heap, root, other, reason) {
      if !Before(other, at) {
        assert other == at + other[|at|..];
        BlamelessInTree(heap, root, at, c, seen, other[|at|..], reason);
      }
    }
  }

  lemma MetBeforeNext(heap: Heap, root: Value, path: Path, i: nat, c: Value, r: Ref)
    requires Follow(heap, root, path + [i]) == Some(c)
    ensures MetBefore(heap, root, path + [i + 1], r) <==> MetBefore(heap, root, path + [i], r) || Holds(heap, c, r)
  {
    hide Before, Follow;
    var at, next := path + [i], path + [i + 1];
    if other :| Before(other, next) && Leads(heap, root, other, r) {
      BeforeNextSibling(other, path, i);
      if !Before(other, at) {
        assert other == at + other[|at|..];
        FollowFurther(heap, root, at, other[|at|..]);
        assert Leads(heap, c, other[|at|..], r);
      }
    }
    if other :| Before(other, at) && Leads(heap, root, other, r) {
      BeforeNextSibling(other, path, i);
      assert Before(other, next);
    }
    if p :| Leads(heap, c, p, r) {
      FollowFurther(heap, root, at, p);
      BeforeNextSibling(at + p, path, i);
      assert Before(at + p, next) && Leads(heap, root, at + p, r);
    }
  }

  lemma BlamelessInTree(heap: Heap, root: Value, at: Path, c: Value, seen: set<Ref>, p: Path, reason: Reason)
    requires Arrived(heap, root, at, seen) && Follow(heap, root, at) == Some(c) && Tree(heap, c, seen, |at|)
    ensures !Blamed(heap, root, at + p, reason)
  {
    hide Before, Follow;
    FollowFurther(heap, root, at, p);
    var found := Follow(heap, c, p);
    if found.Some? && Container(heap, found.value) {
      var r := found.value.ref;
      assert Leads(heap, c, p, r);
      if other :| Before(other, at + p) && Leads(heap, root, other, r) {
        BeforeBelow(other, at, p);
        assert !MetBefore(heap, root, at, r);
        assert other == at + other[|at|..];
        FollowFurther(heap, root, at, other[|at|..]);
        assert Leads(heap, c, other[|at|..], r);
        NotBeforeItself(at + p);
      }
    }
  }

  lemma {:induction false} FaultBelow(heap: Heap, root: Value, path: Path, v: Value, seen: set<Ref>)
    requires Follow(heap, root, path) == Some(v) && Arrived(heap, root, path, seen)
    ensures var fault := Check(heap, v, path, seen, |path|).0; fault.Some? ==>
      Blamed(heap, root, fault.value.path, fault.value.reason) && BlamelessBefore(heap, root, fault.value.path)
    decreases Left(|path|), 0, 0
  {
    if Container(heap, v) && |path| <= MAX_DEPTH && v.ref !in seen && !heap(v.ref).Instance? {
      hide Blamed, Follow, BlamelessBefore, Arrived;
      ArrivedAtFirstChild(heap, root, path, seen);
      FaultAmong(heap, root, path, v, 0, seen + {v.ref});
    }
  }

  lemma {:induction false} FaultAmong(heap: Heap, root: Value, path: Path, v: Value, i: nat, seen: set<Ref>)
    requires Follow(heap, root, path) == Some(v) && v.Object? && i <= |Children(heap(v.ref))|
    requires Arrived(heap, root, path + [i], seen)
    ensures var fault := CheckAll(heap, Children(heap(v.ref)), i, path, seen, |path| + 1).0; fault.Some? ==>
      Blamed(heap, root, fault.value.path, fault.value.reason) && BlamelessBefore(heap, root, fault.value.path)
    decreases Left(|path| + 1), 1, |Children(heap(v.ref))| - i
  {
    var children := Children(heap(v.ref));
    if i < |children| {
      ChildFollowed(heap, root, path, v, i);
      hide Blamed, Follow, Check, BlamelessBefore, Arrived, Tree;
      FaultBelow(heap, root, path + [i], children[i], seen);
      CheckIsTree(heap, children[i], path + [i], seen, |path| + 1);
      var (fault, seen') := Check(heap, children[i], path + [i], seen, |path| + 1);
      if fault.None? {
        ArrivedAtNext(heap, root, path, i, children[i], seen, seen');
        FaultAmong(heap, root, path, v, i + 1, seen');
      }
    }
  }

  lemma ChildFollowed(heap: Heap, root: Value, path: Path, v: Value, i: nat)
    requires Follow(heap, root, path) == Some(v) && v.Object? && i < |Children(heap(v.ref))|
    ensures Follow(heap, root, path + [i]) == Some(Children(heap(v.ref))[i])
  {
    FollowFurther(heap, root, path, [i]);
    assert [i][1..] == [];
    assert Follow(heap, v, [i]) == FollowIn(heap, Children(heap(v.ref)), [i]);
  }

  /**
   * A rejection names the first place that cannot be stored: the value there is at fault for the reason given,
   * and no place the check comes to before it is at fault for any reason.
   */
  lemma FirstFaultReported(heap: Heap, v: Value)
    ensures var fault := Check(heap, v, [], {}, 0).0; fault.Some? ==>
      && Blamed(heap, v, fault.value.path, fault.value.reason)
      && forall other, reason | Before(other, fault.value.path) :: !Blamed(heap, v, other, reason)
  {
    FaultBelow(heap, v, [], v, {});
  }
}
