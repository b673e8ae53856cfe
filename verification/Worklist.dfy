/**
  The graph searches of the soft-delete lint rule (tools/eslint-plugins/no-soft-delete-leak.js): an
  explicit stack and a visited set over an AST whose nodes may point back to each other.
*/
module Worklists {
  import opened Prelude

  type NodeId = nat

  /** The JavaScript values found in an AST; objects other than arrays are referred to by identity. */
  datatype Value =
    | Undefined
    | Boolean(b: bool)
    | Number(n: int)
    | Text(s: string)
    | Arr(items: seq<Value>)
    | Ref(id: NodeId)

  /** One own property. */
  datatype Field = Field(key: string, value: Value)

  type Heap = map<NodeId, seq<Field>>

  predicate Truthy(v: Value) {
    match v
    case Undefined => false
    case Boolean(b) => b
    case Number(n) => n != 0
    case Text(s) => s != ""
    case _ => true
  }

  function FieldValue(fields: seq<Field>, key: string): Value {
    if fields == [] then Undefined
    else if fields[0].key == key then fields[0].value
    else FieldValue(fields[1..], key)
  }

  /** v[key]; arrays and primitives have none of the properties asked for here. */
  function Get(h: Heap, v: Value, key: string): Value {
    if v.Ref? && v.id in h then FieldValue(h[v.id], key) else Undefined
  }

  /** An object with a truthy `type`. */
  predicate IsNode(h: Heap, v: Value) {
    v.Ref? && Truthy(Get(h, v, "type"))
  }

  predicate IsNullishGuard(h: Heap, v: Value) {
    && Get(h, v, "type") == Text("CallExpression")
    && var callee := Get(h, v, "callee");
       && Get(h, callee, "type") == Text("Identifier")
       && (Get(h, callee, "name") == Text("notDeleted") || Get(h, callee, "name") == Text("isNull"))
  }

  /** An object has at most one property of a name; the others do not matter, nor does their order. */
  lemma {:induction false} FieldValueIs(fields: seq<Field>, i: nat, key: string)
    requires forall a, b | 0 <= a < b < |fields| :: fields[a].key != fields[b].key
    ensures i < |fields| ==> FieldValue(fields, fields[i].key) == fields[i].value
    ensures (forall a | 0 <= a < |fields| :: fields[a].key != key) ==> FieldValue(fields, key) == Undefined
  {
    if fields != [] {
      FieldValueIs(fields[1..], if i > 0 then i - 1 else 0, key);
      if 0 < i < |fields| {
        assert fields[1..][i - 1] == fields[i] && fields[0].key != fields[i].key;
      }
    }
  }

  /** The falsy values. */
  lemma FalsyIs(v: Value)
    ensures !Truthy(v) <==> v in {Undefined, Boolean(false), Number(0), Text("")}
  {
  }

  /** The AST of `callee(...)` is a guard exactly for the two names. */
  lemma GuardCallIff(h: Heap, name: string)
    requires 0 in h && h[0] == [Field("type", Text("CallExpression")), Field("callee", Ref(1))]
    requires 1 in h && h[1] == [Field("type", Text("Identifier")), Field("name", Text(name))]
    ensures IsNode(h, Ref(0)) && (IsNullishGuard(h, Ref(0)) <==> name == "notDeleted" || name == "isNull")
  {
    FieldValueIs(h[0], 0, "type");
    FieldValueIs(h[0], 1, "callee");
    FieldValueIs(h[1], 0, "type");
    FieldValueIs(h[1], 1, "name");
  }

  // Reachability ----------------------------------------------------------------------------------

  /** b is a node held by a property of a other than `parent`, directly or as an element of an array. */
  ghost predicate Edge(h: Heap, a: NodeId, b: NodeId) {
    a in h && IsNode(h, Ref(b)) && HeldBy(h[a], b)
  }

  predicate Holds(v: Value, b: NodeId) {
    v == Ref(b) || (v.Arr? && Ref(b) in v.items)
  }

  ghost predicate IsPath(h: Heap, p: seq<NodeId>) {
    p != [] && forall i | 0 < i < |p| :: Edge(h, p[i - 1], p[i])
  }

  ghost predicate PathTo(h: Heap, p: seq<NodeId>, a: NodeId, b: NodeId) {
    IsPath(h, p) && p[0] == a && p[|p| - 1] == b
  }

  /** Along non-parent edges, in any number of steps. */
  ghost predicate Reaches(h: Heap, a: NodeId, b: NodeId) {
    exists p: seq<NodeId> :: PathTo(h, p, a, b)
  }

  lemma ReachesItself(h: Heap, a: NodeId)
    ensures Reaches(h, a, a)
  {
    assert PathTo(h, [a], a, a);
  }

  lemma ReachesFurther(h: Heap, a: NodeId, b: NodeId, c: NodeId)
    requires Reaches(h, a, b) && Edge(h, b, c)
    ensures Reaches(h, a, c)
  {
    var p: seq<NodeId> :| PathTo(h, p, a, b);
    assert PathTo(h, p + [c], a, c);
  }

  /** What a set with no way out contains, it keeps. */
  lemma {:induction false} ClosedKeepsPath(h: Heap, s: set<NodeId>, p: seq<NodeId>)
    requires forall x, y | x in s && Edge(h, x, y) :: y in s
    requires IsPath(h, p) && p[0] in s
    ensures p[|p| - 1] in s
  {
    if |p| > 1 {
      var init := p[..|p| - 1];
      ClosedKeepsPath(h, s, init);
      assert Edge(h, init[|init| - 1], p[|p| - 1]);
    }
  }

  // Pushing -----------------------------------------------------------------------------------------

  /** What one property contributes to the stack. */
  function Pushed(h: Heap, f: Field): seq<Value> {
    if f.key == "parent" || !Truthy(f.value) then []
    else if f.value.Arr? then f.value.items
    else if IsNode(h, f.value) then [f.value] else []
  }

  function Pushes(h: Heap, fields: seq<Field>): seq<Value> {
    if fields == [] then [] else Pushes(h, fields[..|fields| - 1]) + Pushed(h, fields[|fields| - 1])
  }

  ghost predicate HeldBy(fields: seq<Field>, b: NodeId) {
    exists i | 0 <= i < |fields| :: fields[i].key != "parent" && Holds(fields[i].value, b)
  }

  lemma HeldStep(fields: seq<Field>, f: Field, b: NodeId)
    ensures HeldBy(fields + [f], b) <==> HeldBy(fields, b) || (f.key != "parent" && Holds(f.value, b))
  {
    var more := fields + [f];
    assert more[|fields|] == f;
    assert forall i | 0 <= i < |fields| :: more[i] == fields[i];
  }

  /** The nodes pushed are exactly the neighbours. */
  lemma {:induction false} PushesAreHeld(h: Heap, fields: seq<Field>, b: NodeId)
    requires IsNode(h, Ref(b))
    ensures Ref(b) in Pushes(h, fields) <==> HeldBy(fields, b)
  {
    if fields != [] {
      var fewer, f := fields[..|fields| - 1], fields[|fields| - 1];
      PushesAreHeld(h, fewer, b);
      HeldStep(fewer, f, b);
      assert fields == fewer + [f];
      assert Ref(b) in Pushed(h, f) <==> f.key != "parent" && Holds(f.value, b);
    }
  }

  function Children(h: Heap, v: Value): seq<Value> {
    if v.Ref? && v.id in h then Pushes(h, h[v.id]) else []
  }

  lemma ChildrenAreNeighbours(h: Heap, a: NodeId, b: NodeId)
    ensures IsNode(h, Ref(b)) && Ref(b) in Children(h, Ref(a)) <==> Edge(h, a, b)
  {
    if IsNode(h, Ref(b)) && a in h {
      PushesAreHeld(h, h[a], b);
    }
  }

  method PushItems(items: seq<Value>, stack: seq<Value>) returns (stack': seq<Value>)
    ensures stack' == stack + items
  {
    stack' := stack;
    for j := 0 to |items|
      invariant stack' == stack + items[..j]
    {
      stack' := stack' + [items[j]];
    }
  }

  /** The loop over Object.keys(node). */
  method PushChildren(h: Heap, node: Value, stack: seq<Value>) returns (stack': seq<Value>)
    requires IsNode(h, node)
    ensures stack' == stack + Children(h, node)
  {
    stack' := stack;
    var fields := h[node.id];
    for i := 0 to |fields|
      invariant stack' == stack + Pushes(h, fields[..i])
    {
      PushesStep(h, fields, i);
      ghost var before := stack';
      var val := fields[i].value;
      if fields[i].key == "parent" || !Truthy(val) {
      } else if val.Arr? {
        stack' := PushItems(val.items, stack');
      } else if val.Ref? && Truthy(Get(h, val, "type")) {
        stack' := stack' + [val];
      }
      assert stack' == before + Pushed(h, fields[i]);
      Appended(stack, Pushes(h, fields[..i]), Pushed(h, fields[i]));
    }
    assert fields[..|fields|] == fields;
  }

  lemma Appended(stack: seq<Value>, a: seq<Value>, b: seq<Value>)
    ensures (stack + a) + b == stack + (a + b)
  {
  }

  lemma PushesStep(h: Heap, fields: seq<Field>, i: nat)
    requires i < |fields|
    ensures Pushes(h, fields[..i + 1]) == Pushes(h, fields[..i]) + Pushed(h, fields[i])
  {
    assert fields[..i + 1][..i] == fields[..i];
  }

  // The search invariant ------------------------------------------------------------------------------

  /** Visited nodes and nodes on the stack are reachable, and what a visited node points to is one or the other. */
  ghost predicate Searching(h: Heap, root: NodeId, visited: set<NodeId>, stack: seq<Value>) {
    && (forall a | a in visited :: Reaches(h, root, a))
    && (forall i | 0 <= i < |stack| && IsNode(h, stack[i]) :: Reaches(h, root, stack[i].id))
    && (forall a, b | a in visited && Edge(h, a, b) :: b in visited || Ref(b) in stack)
    && (root in visited || Ref(root) in stack)
  }

  /** The popped value is dropped: no node, or seen before. */
  lemma Dropped(h: Heap, root: NodeId, visited: set<NodeId>, stack: seq<Value>)
    requires stack != [] && Searching(h, root, visited, stack) && IsNode(h, Ref(root))
    requires var top := stack[|stack| - 1]; IsNode(h, top) ==> top.id in visited
    ensures Searching(h, root, visited, stack[..|stack| - 1])
  {
    var n := |stack| - 1;
    assert stack == stack[..n] + [stack[n]];
  }

  /** The popped node is visited and its children are pushed. */
  lemma Visited(h: Heap, root: NodeId, visited: set<NodeId>, stack: seq<Value>)
    requires stack != [] && Searching(h, root, visited, stack) && IsNode(h, stack[|stack| - 1])
    ensures var n := |stack| - 1;
            Searching(h, root, visited + {stack[n].id}, stack[..n] + Children(h, stack[n]))
  {
    var n := |stack| - 1;
    var a, rest := stack[n].id, stack[..n];
    var more := Children(h, Ref(a));
    assert stack == rest + [Ref(a)];
    assert Reaches(h, root, a);
    ExpandedIsReachable(h, root, a);
    forall b | Edge(h, a, b) ensures Ref(b) in more {
      ChildrenAreNeighbours(h, a, b);
    }
    var stack' := rest + more;
    forall i | 0 <= i < |stack'| && IsNode(h, stack'[i]) ensures Reaches(h, root, stack'[i].id) {
      if i < n {
        assert stack'[i] == stack[i];
      } else {
        assert stack'[i] == more[i - n];
      }
    }
  }

  lemma ExpandedIsReachable(h: Heap, root: NodeId, a: NodeId)
    requires Reaches(h, root, a)
    ensures var more := Children(h, Ref(a));
            forall i | 0 <= i < |more| && IsNode(h, more[i]) :: Reaches(h, root, more[i].id)
  {
    var more := Children(h, Ref(a));
    forall i | 0 <= i < |more| && IsNode(h, more[i]) ensures Reaches(h, root, more[i].id) {
      ChildrenAreNeighbours(h, a, more[i].id);
      ReachesFurther(h, root, a, more[i].id);
    }
  }

  /** With the stack empty, everything reachable has been visited. */
  lemma Exhausted(h: Heap, root: NodeId, visited: set<NodeId>, b: NodeId)
    requires Searching(h, root, visited, [])
    ensures b in visited <==> Reaches(h, root, b)
  {
    if p: seq<NodeId> :| PathTo(h, p, root, b) {
      ClosedKeepsPath(h, visited, p);
    }
  }

  lemma StartsSearching(h: Heap, root: NodeId)
    requires IsNode(h, Ref(root))
    ensures Searching(h, root, {}, [Ref(root)])
    ensures Searching(h, root, {root}, Children(h, Ref(root)))
  {
    ReachesItself(h, root);
    Visited(h, root, {}, [Ref(root)]);
    assert [] + Children(h, Ref(root)) == Children(h, Ref(root));
    assert [Ref(root)][..0] == [];
    assert {} + {root} == {root};
  }

  /** The same when the start may be no node at all. */
  ghost predicate SearchingFrom(h: Heap, start: Value, visited: set<NodeId>, stack: seq<Value>) {
    if IsNode(h, start) then Searching(h, start.id, visited, stack) else stack == [start] || stack == []
  }

  lemma StartsFrom(h: Heap, start: Value)
    ensures SearchingFrom(h, start, {}, [start])
  {
    if IsNode(h, start) {
      StartsSearching(h, start.id);
    }
  }

  lemma DroppedFrom(h: Heap, start: Value, visited: set<NodeId>, stack: seq<Value>)
    requires stack != [] && SearchingFrom(h, start, visited, stack)
    requires var top := stack[|stack| - 1]; IsNode(h, top) ==> top.id in visited
    ensures SearchingFrom(h, start, visited, stack[..|stack| - 1])
  {
    if IsNode(h, start) {
      Dropped(h, start.id, visited, stack);
    }
  }

  lemma VisitedFrom(h: Heap, start: Value, visited: set<NodeId>, stack: seq<Value>)
    requires stack != [] && SearchingFrom(h, start, visited, stack)
    requires var top := stack[|stack| - 1]; IsNode(h, top) && top.id !in visited
    ensures var n := |stack| - 1;
            && SearchingFrom(h, start, visited + {stack[n].id}, stack[..n] + Children(h, stack[n]))
            && IsNode(h, start) && Reaches(h, start.id, stack[n].id)
            && |h.Keys - (visited + {stack[n].id})| < |h.Keys - visited|
  {
    VisitingShrinks(h, visited, stack[|stack| - 1]);
    Visited(h, start.id, visited, stack);
  }

  lemma ExhaustedFrom(h: Heap, start: Value, visited: set<NodeId>, b: NodeId)
    requires IsNode(h, start) && SearchingFrom(h, start, visited, []) && Reaches(h, start.id, b)
    ensures b in visited
  {
    Exhausted(h, start.id, visited, b);
  }

  lemma VisitingShrinks(h: Heap, visited: set<NodeId>, v: Value)
    requires IsNode(h, v) && v.id !in visited
    ensures |h.Keys - (visited + {v.id})| < |h.Keys - visited|
  {
    assert h.Keys - visited == (h.Keys - (visited + {v.id})) + {v.id};
  }

  // hasNotDeletedGuard --------------------------------------------------------------------------------

  ghost predicate GuardBelow(h: Heap, v: Value) {
    v.Ref? && exists b :: Reaches(h, v.id, b) && IsNullishGuard(h, Ref(b))
  }

  /** On any finite graph, cyclic or not, the search ends and finds a guard exactly if one is reachable. */
  method HasNotDeletedGuard(h: Heap, root: Value) returns (r: bool)
    ensures r <==> IsNode(h, root) && GuardBelow(h, root)
  {
    if !IsNode(h, root) {
      return false;
    }
    ReachesItself(h, root.id);
    if IsNullishGuard(h, root) {
      return true;
    }
    var stack := PushChildren(h, root, []);
    var visited := {root.id};
    StartsSearching(h, root.id);
    assert stack == Children(h, root);
    while |stack| > 0
      invariant Searching(h, root.id, visited, stack)
      invariant forall a | a in visited :: !IsNullishGuard(h, Ref(a))
      decreases |h.Keys - visited|, |stack|
    {
      var node := stack[|stack| - 1];
      if !IsNode(h, node) || node.id in visited {
        Dropped(h, root.id, visited, stack);
        stack := stack[..|stack| - 1];
        continue;
      }
      Visited(h, root.id, visited, stack);
      VisitingShrinks(h, visited, node);
      stack := stack[..|stack| - 1];
      visited := visited + {node.id};
      if IsNullishGuard(h, node) {
        return true;
      }
      stack := PushChildren(h, node, stack);
    }
    forall b | Reaches(h, root.id, b) ensures !IsNullishGuard(h, Ref(b)) {
      Exhausted(h, root.id, visited, b);
    }
    return false;
  }

  // staticPredicateCallsNotDeleted ----------------------------------------------------------------------

  /** A static class member of the given name with a value. */
  predicate Defines(h: Heap, v: Value, name: string) {
    && (Get(h, v, "type") == Text("PropertyDefinition") || Get(h, v, "type") == Text("MethodDefinition"))
    && Truthy(Get(h, v, "static")) && Get(h, Get(h, v, "key"), "name") == Text(name) && Truthy(Get(h, v, "value"))
  }

  /** `static key = value` and `static key() {}` define the key's name, and nothing else does. */
  lemma DefinesIff(h: Heap, kind: string, isStatic: bool, key: string, name: string)
    requires 0 in h && h[0] == [Field("type", Text(kind)), Field("static", Boolean(isStatic)), Field("key", Ref(1)),
                                Field("value", Ref(2))]
    requires 1 in h && h[1] == [Field("type", Text("Identifier")), Field("name", Text(key))]
    ensures Defines(h, Ref(0), name) <==>
            (kind == "PropertyDefinition" || kind == "MethodDefinition") && isStatic && key == name
  {
    FieldValueIs(h[0], 0, "type");
    FieldValueIs(h[0], 1, "static");
    FieldValueIs(h[0], 2, "key");
    FieldValueIs(h[0], 3, "value");
    FieldValueIs(h[1], 1, "name");
  }

  ghost predicate Safe(h: Heap, d: NodeId) {
    IsNode(h, Get(h, Ref(d), "value")) && GuardBelow(h, Get(h, Ref(d), "value"))
  }

  ghost predicate DefinedAt(h: Heap, tree: NodeId, name: string, d: NodeId) {
    Reaches(h, tree, d) && Defines(h, Ref(d), name)
  }

  /** The definition the search comes to first: values are popped from the end, properties pushed in order. */
  function Find(h: Heap, stack: seq<Value>, visited: set<NodeId>, name: string): Option<NodeId>
    decreases |h.Keys - visited|, |stack|
  {
    if stack == [] then None
    else
      var top, rest := stack[|stack| - 1], stack[..|stack| - 1];
      if !IsNode(h, top) || top.id in visited then Find(h, rest, visited, name)
      else if Defines(h, top, name) then Some(top.id)
      else
        VisitingShrinks(h, visited, top);
        Find(h, rest + Children(h, top), visited + {top.id}, name)
  }

  function FirstDefinition(h: Heap, tree: Value, name: string): Option<NodeId> {
    Find(h, [tree], {}, name)
  }

  /** It is a reachable definition, and there is one exactly if any is reachable. */
  lemma {:induction false} FindMeans(h: Heap, root: NodeId, stack: seq<Value>, visited: set<NodeId>, name: string)
    requires IsNode(h, Ref(root)) && Searching(h, root, visited, stack)
    requires forall a | a in visited :: !Defines(h, Ref(a), name)
    ensures var r := Find(h, stack, visited, name);
            && (r.Some? ==> DefinedAt(h, root, name, r.value))
            && (r.None? ==> forall d :: !DefinedAt(h, root, name, d))
    decreases |h.Keys - visited|, |stack|
  {
    if stack == [] {
      forall d | Reaches(h, root, d) ensures !Defines(h, Ref(d), name) {
        Exhausted(h, root, visited, d);
      }
    } else {
      var top, rest := stack[|stack| - 1], stack[..|stack| - 1];
      if !IsNode(h, top) || top.id in visited {
        Dropped(h, root, visited, stack);
        FindMeans(h, root, rest, visited, name);
      } else if !Defines(h, top, name) {
        VisitingShrinks(h, visited, top);
        Visited(h, root, visited, stack);
        FindMeans(h, root, rest + Children(h, top), visited + {top.id}, name);
      }
    }
  }

  lemma FirstDefinitionMeans(h: Heap, tree: Value, name: string)
    ensures var r := FirstDefinition(h, tree, name);
            && (r.Some? ==> IsNode(h, tree) && DefinedAt(h, tree.id, name, r.value))
            && (r.None? && IsNode(h, tree) ==> forall d :: !DefinedAt(h, tree.id, name, d))
  {
    if IsNode(h, tree) {
      StartsSearching(h, tree.id);
      FindMeans(h, tree.id, [tree], {}, name);
    } else {
      assert [tree][..0] == [];
      assert Find(h, [tree], {}, name) == Find(h, [], {}, name);
    }
  }

  /** The same search written recursively: a node, then what it pushes from the last to the first. */
  function Dfs(h: Heap, v: Value, visited: set<NodeId>, name: string): (r: (Option<NodeId>, set<NodeId>))
    ensures visited <= r.1
    decreases |h.Keys - visited|, 0
  {
    if !IsNode(h, v) || v.id in visited then (None, visited)
    else if Defines(h, v, name) then (Some(v.id), visited + {v.id})
    else
      VisitingShrinks(h, visited, v);
      DfsAll(h, Children(h, v), visited + {v.id}, name)
  }

  function DfsAll(h: Heap, vs: seq<Value>, visited: set<NodeId>, name: string): (r: (Option<NodeId>, set<NodeId>))
    ensures visited <= r.1
    decreases |h.Keys - visited|, |vs|
  {
    if vs == [] then (None, visited)
    else
      var n := |vs| - 1;
      var first := Dfs(h, vs[n], visited, name);
      if first.0.Some? then first
      else
        SubsetSize(h.Keys - first.1, h.Keys - visited);
        DfsAll(h, vs[..n], first.1, name)
  }

  /** The explicit stack does what the recursion does: first all of what was pushed last, then the rest. */
  lemma {:induction false} FindIsRecursion(h: Heap, rest: seq<Value>, vs: seq<Value>, visited: set<NodeId>,
                                           name: string)
    ensures var r := DfsAll(h, vs, visited, name);
            Find(h, rest + vs, visited, name) == if r.0.Some? then r.0 else Find(h, rest, r.1, name)
    decreases |h.Keys - visited|, |vs|
  {
    if vs == [] {
      assert rest + vs == rest;
    } else {
      var n := |vs| - 1;
      var top, others := vs[n], vs[..n];
      var stack := rest + vs;
      assert stack[|stack| - 1] == top && stack[..|stack| - 1] == rest + others;
      if !IsNode(h, top) || top.id in visited {
        FindIsRecursion(h, rest, others, visited, name);
      } else if !Defines(h, top, name) {
        VisitingShrinks(h, visited, top);
        FindIsRecursion(h, rest + others, Children(h, top), visited + {top.id}, name);
        var below := DfsAll(h, Children(h, top), visited + {top.id}, name);
        if below.0.None? {
          SubsetSize(h.Keys - below.1, h.Keys - (visited + {top.id}));
          FindIsRecursion(h, rest, others, below.1, name);
        }
      }
    }
  }

  /** So the definition found is the first in a recursive depth-first walk of the tree. */
  lemma FirstIsDepthFirst(h: Heap, tree: Value, name: string)
    ensures FirstDefinition(h, tree, name) == Dfs(h, tree, {}, name).0
  {
    FindIsRecursion(h, [], [tree], {}, name);
    assert [] + [tree] == [tree] && [tree][..0] == [];
  }

  /** The answer for a name is that of its first definition, and no without one. */
  ghost predicate SafeName(h: Heap, tree: Value, name: string) {
    var d := FirstDefinition(h, tree, name);
    d.Some? && Safe(h, d.value)
  }

  method StaticPredicateCallsNotDeleted(h: Heap, tree: Value, name: string) returns (r: bool)
    ensures r <==> SafeName(h, tree, name)
  {
    if !Truthy(tree) {
      FirstDefinitionMeans(h, tree, name);
      return false;
    }
    var stack, visited: set<NodeId> := [tree], {};
    while |stack| > 0
      invariant Find(h, stack, visited, name) == FirstDefinition(h, tree, name)
      decreases |h.Keys - visited|, |stack|
    {
      var node := stack[|stack| - 1];
      stack := stack[..|stack| - 1];
      if !IsNode(h, node) || node.id in visited {
        continue;
      }
      VisitingShrinks(h, visited, node);
      visited := visited + {node.id};
      if Defines(h, node, name) {
        r := HasNotDeletedGuard(h, Get(h, node, "value"));
        assert Ref(node.id) == node;
        return r;
      }
      stack := PushChildren(h, node, stack);
    }
    return false;
  }

  // whereReferencesSafePredicate ------------------------------------------------------------------------

  function Upper(ch: char): char {
    if 'a' <= ch <= 'z' then ((ch as int - 'a' as int) + 'A' as int) as char else ch
  }

  /** /PREDICATE$/i */
  predicate EndsInPredicate(s: string) {
    |s| >= 9 && forall i | 0 <= i < 9 :: Upper(s[|s| - 9 + i]) == "PREDICATE"[i]
  }

  /** The last nine letters, in either case. */
  lemma EndsInPredicateIff(init: string, last: string)
    requires |last| == 9
    ensures EndsInPredicate(init + last) <==>
            forall i | 0 <= i < 9 :: last[i] == "PREDICATE"[i] || last[i] == "predicate"[i]
  {
    var s := init + last;
    forall i | 0 <= i < 9
      ensures Upper(s[|s| - 9 + i]) == "PREDICATE"[i] <==> last[i] == "PREDICATE"[i] || last[i] == "predicate"[i]
    {
      assert s[|s| - 9 + i] == last[i];
      assert Upper("predicate"[i]) == "PREDICATE"[i];
    }
  }

  /** ClassName.SOME_PREDICATE */
  predicate NamesPredicate(h: Heap, v: Value) {
    && Get(h, v, "type") == Text("MemberExpression")
    && Get(h, Get(h, v, "object"), "type") == Text("Identifier")
    && var property := Get(h, v, "property");
       && Get(h, property, "type") == Text("Identifier")
       && Get(h, property, "name").Text? && EndsInPredicate(Get(h, property, "name").s)
  }

  function PredicateName(h: Heap, v: Value): string
    requires NamesPredicate(h, v)
  {
    Get(h, Get(h, v, "property"), "name").s
  }

  /** `object.property` names a predicate exactly if both are identifiers and the property ends as one. */
  lemma NamesPredicateIff(h: Heap, kind: string, owner: string, member: string, name: string)
    requires 0 in h && h[0] == [Field("type", Text(kind)), Field("object", Ref(1)), Field("property", Ref(2))]
    requires 1 in h && h[1] == [Field("type", Text(owner))]
    requires 2 in h && h[2] == [Field("type", Text(member)), Field("name", Text(name))]
    ensures NamesPredicate(h, Ref(0)) <==>
            kind == "MemberExpression" && owner == member == "Identifier" && EndsInPredicate(name)
    ensures NamesPredicate(h, Ref(0)) ==> PredicateName(h, Ref(0)) == name
  {
    FieldValueIs(h[0], 0, "type");
    FieldValueIs(h[0], 1, "object");
    FieldValueIs(h[0], 2, "property");
    FieldValueIs(h[1], 0, "type");
    FieldValueIs(h[2], 0, "type");
    FieldValueIs(h[2], 1, "name");
  }

  /** Whether the clause names, anywhere in it, a predicate that is answered yes. */
  method WhereReferencesSafePredicate(h: Heap, ast: Value, whereArg: Value) returns (r: bool)
    ensures r <==> IsNode(h, whereArg) && exists m :: Reaches(h, whereArg.id, m) && NamesPredicate(h, Ref(m))
                                                    && SafeName(h, ast, PredicateName(h, Ref(m)))
  {
    var stack, visited: set<NodeId> := [whereArg], {};
    StartsFrom(h, whereArg);
    while |stack| > 0
      invariant SearchingFrom(h, whereArg, visited, stack)
      invariant forall a | a in visited && NamesPredicate(h, Ref(a)) :: !SafeName(h, ast, PredicateName(h, Ref(a)))
      decreases |h.Keys - visited|, |stack|
    {
      var node := stack[|stack| - 1];
      if !IsNode(h, node) || node.id in visited {
        DroppedFrom(h, whereArg, visited, stack);
        stack := stack[..|stack| - 1];
        continue;
      }
      VisitedFrom(h, whereArg, visited, stack);
      stack := stack[..|stack| - 1];
      visited := visited + {node.id};
      assert Ref(node.id) == node;
      if NamesPredicate(h, node) {
        var safe := StaticPredicateCallsNotDeleted(h, ast, PredicateName(h, node));
        if safe {
          return true;
        }
      }
      stack := PushChildren(h, node, stack);
    }
    if IsNode(h, whereArg) {
      forall m | Reaches(h, whereArg.id, m) ensures m in visited {
        ExhaustedFrom(h, whereArg, visited, m);
      }
    }
    return false;
  }
}
