/** The parsed `__NEXT_DATA__` document of a LeetCode profile page as an
    object graph, and `deepFind`: a depth-first search with an explicit stack
    and a `seen` set that returns the first object or array node satisfying a
    shape predicate. Object identity is a node id; a value that is not an
    object (string, number, boolean, null) is a leaf, and an id missing from
    the heap is `undefined`. */
module ObjectGraph {
  import opened Wrappers

  type NodeId = nat

  /** A JSON value. `fields` lists an object's own keys in `Object.keys`
      order. */
  datatype Node =
    | Object(fields: seq<(string, NodeId)>)
    | Array(elements: seq<NodeId>)
    | Str(s: string)
    | Num(n: int)
    | Bool(b: bool)
    | Null

  type Heap = map<NodeId, Node>

  /** Passes `curr && typeof curr === 'object'`: an object or an array. */
  predicate IsObject(heap: Heap, id: NodeId) {
    id in heap && (heap[id].Object? || heap[id].Array?)
  }

  /** The values `deepFind` pushes for a node, in `Object.keys` order. */
  function Children(node: Node): (c: seq<NodeId>)
    ensures node.Array? ==> c == node.elements
    ensures node.Object? ==> |c| == |node.fields| && forall i :: 0 <= i < |c| ==> c[i] == node.fields[i].1
    ensures !node.Object? && !node.Array? ==> c == []
  {
    match node
    case Object(fields) => seq(|fields|, i requires 0 <= i < |fields| => fields[i].1)
    case Array(elements) => elements
    case _ => []
  }

  predicate ChildOf(heap: Heap, parent: NodeId, child: NodeId) {
    IsObject(heap, parent) && child in Children(heap[parent])
  }

  /** A chain of parent-to-child steps. */
  ghost predicate IsPath(heap: Heap, p: seq<NodeId>) {
    |p| > 0 && forall i :: 0 <= i < |p| - 1 ==> ChildOf(heap, p[i], p[i + 1])
  }

  ghost predicate Reachable(heap: Heap, root: NodeId, x: NodeId) {
    exists p :: IsPath(heap, p) && p[0] == root && p[|p| - 1] == x
  }

  lemma ReachableRoot(heap: Heap, root: NodeId)
    ensures Reachable(heap, root, root)
  {
    assert IsPath(heap, [root]);
  }

  lemma ReachableStep(heap: Heap, root: NodeId, x: NodeId, c: NodeId)
    requires Reachable(heap, root, x) && ChildOf(heap, x, c)
    ensures Reachable(heap, root, c)
  {
    var p :| IsPath(heap, p) && p[0] == root && p[|p| - 1] == x;
    var q := p + [c];
    assert IsPath(heap, q);
    assert q[0] == root && q[|q| - 1] == c;
  }

  /** A set of objects that contains the root (when it is an object) and,
      with every member, each child that is an object, contains every object
      reachable from the root. */
  lemma {:induction false} ClosedContainsReachable(heap: Heap, root: NodeId, s: set<NodeId>, p: seq<NodeId>)
    requires IsObject(heap, root) ==> root in s
    requires forall x, c :: x in s && IsObject(heap, x) && c in Children(heap[x]) && IsObject(heap, c) ==> c in s
    requires IsPath(heap, p) && p[0] == root
    ensures IsObject(heap, p[|p| - 1]) ==> p[|p| - 1] in s
    decreases |p|
  {
    if |p| > 1 {
      var q := p[..|p| - 1];
      assert IsPath(heap, q);
      ClosedContainsReachable(heap, root, s, q);
      assert ChildOf(heap, p[|p| - 2], p[|p| - 1]);
    }
  }

  /** What the search knows between rounds: `seen` holds exactly the visited
      nodes, all reachable objects that failed the predicate, none twice;
      everything on the stack is reachable; and every object child of a seen
      node is seen or still on the stack, as is the root. */
  ghost predicate SearchInvariant(heap: Heap, root: NodeId, pred: NodeId -> bool,
                                  seen: set<NodeId>, stack: seq<NodeId>, visited: seq<NodeId>)
  {
    && seen <= heap.Keys
    && (forall x :: x in seen <==> x in visited)
    && (forall i, j :: 0 <= i < j < |visited| ==> visited[i] != visited[j])
    && (forall i :: 0 <= i < |visited| ==> IsObject(heap, visited[i]) && Reachable(heap, root, visited[i]))
    && (forall i :: 0 <= i < |visited| ==> !pred(visited[i]))
    && (forall x :: x in stack ==> Reachable(heap, root, x))
    && (IsObject(heap, root) ==> root in seen || root in stack)
    && (forall x, c :: x in seen && c in Children(heap[x]) && IsObject(heap, c) ==> c in seen || c in stack)
  }

  /** Popping a node that is not an object or was already seen keeps the
      invariant. */
  lemma SkipKeepsInvariant(heap: Heap, root: NodeId, pred: NodeId -> bool,
                           seen: set<NodeId>, stack: seq<NodeId>, visited: seq<NodeId>)
    requires stack != [] && SearchInvariant(heap, root, pred, seen, stack, visited)
    requires !IsObject(heap, stack[|stack| - 1]) || stack[|stack| - 1] in seen
    ensures SearchInvariant(heap, root, pred, seen, stack[..|stack| - 1], visited)
  {
    var curr, rest := stack[|stack| - 1], stack[..|stack| - 1];
    assert stack == rest + [curr];
    forall x | x in rest ensures Reachable(heap, root, x) {
      assert x in stack;
    }
  }

  /** Testing a new object that fails the predicate and pushing its children
      keeps the invariant. */
  lemma VisitKeepsInvariant(heap: Heap, root: NodeId, pred: NodeId -> bool,
                            seen: set<NodeId>, stack: seq<NodeId>, visited: seq<NodeId>)
    requires stack != [] && SearchInvariant(heap, root, pred, seen, stack, visited)
    requires IsObject(heap, stack[|stack| - 1]) && stack[|stack| - 1] !in seen && !pred(stack[|stack| - 1])
    ensures var curr := stack[|stack| - 1];
            SearchInvariant(heap, root, pred, seen + {curr},
                            stack[..|stack| - 1] + Children(heap[curr]), visited + [curr])
  {
    var curr, rest := stack[|stack| - 1], stack[..|stack| - 1];
    var kids := Children(heap[curr]);
    assert stack == rest + [curr];
    assert Reachable(heap, root, curr);
    forall c | c in kids ensures Reachable(heap, root, c) {
      ReachableStep(heap, root, curr, c);
    }
    forall x | x in rest ensures Reachable(heap, root, x) {
      assert x in stack;
    }
    var t := visited + [curr];
    forall i | 0 <= i < |t| ensures IsObject(heap, t[i]) && Reachable(heap, root, t[i]) && !pred(t[i]) {
      if i < |visited| { assert t[i] == visited[i]; }
    }
  }

  /** `deepFind(root, predicate)`. The result, if any, is an object node
      reachable from the root that satisfies the predicate; no result means
      no reachable object node satisfies it; a matching root is returned
      itself. `visited` lists the nodes handed to the predicate: each is a
      reachable object, none twice, and all but the returned one failed.
      The loop ends on cyclic graphs because every round either pops the
      stack or adds a new node of the finite heap to `seen`. */
  method DeepFind(heap: Heap, root: NodeId, pred: NodeId -> bool)
    returns (found: Option<NodeId>, ghost visited: seq<NodeId>)
    ensures found.Some? ==> IsObject(heap, found.value) && pred(found.value) && Reachable(heap, root, found.value)
    ensures found.None? ==> forall x :: IsObject(heap, x) && Reachable(heap, root, x) ==> !pred(x)
    ensures IsObject(heap, root) && pred(root) ==> found == Some(root)
    ensures forall i, j :: 0 <= i < j < |visited| ==> visited[i] != visited[j]
    ensures forall i :: 0 <= i < |visited| ==> IsObject(heap, visited[i]) && Reachable(heap, root, visited[i])
    ensures found.Some? ==> |visited| > 0 && visited[|visited| - 1] == found.value
    ensures forall i :: 0 <= i < |visited| && (found.None? || i < |visited| - 1) ==> !pred(visited[i])
  {
    var seen: set<NodeId> := {};
    var stack: seq<NodeId> := [root];
    visited := [];
    ReachableRoot(heap, root);
    while stack != []
      invariant SearchInvariant(heap, root, pred, seen, stack, visited)
      invariant IsObject(heap, root) && pred(root) ==> stack == [root]
      decreases |heap.Keys - seen|, |stack|
    {
      var curr := stack[|stack| - 1];
      if IsObject(heap, curr) && curr !in seen {
        if pred(curr) {
          SearchFound(heap, root, pred, seen, stack, visited);
          return Some(curr), visited + [curr];
        }
        VisitKeepsInvariant(heap, root, pred, seen, stack, visited);
        assert heap.Keys - (seen + {curr}) < heap.Keys - seen;
        seen := seen + {curr};
        visited := visited + [curr];
        stack := stack[..|stack| - 1] + Children(heap[curr]);
      } else {
        SkipKeepsInvariant(heap, root, pred, seen, stack, visited);
        stack := stack[..|stack| - 1];
      }
    }
    SearchExhausted(heap, root, pred, seen, visited);
    return None, visited;
  }

  /** Testing a new object that satisfies the predicate ends the search:
      the visited nodes, with it, are still distinct reachable objects and
      all but it failed. */
  lemma SearchFound(heap: Heap, root: NodeId, pred: NodeId -> bool,
                    seen: set<NodeId>, stack: seq<NodeId>, visited: seq<NodeId>)
    requires stack != [] && SearchInvariant(heap, root, pred, seen, stack, visited)
    requires IsObject(heap, stack[|stack| - 1]) && stack[|stack| - 1] !in seen
    ensures var t := visited + [stack[|stack| - 1]];
            && (forall i, j :: 0 <= i < j < |t| ==> t[i] != t[j])
            && (forall i :: 0 <= i < |t| ==> IsObject(heap, t[i]) && Reachable(heap, root, t[i]))
            && (forall i :: 0 <= i < |t| - 1 ==> !pred(t[i]))
  {
    var curr := stack[|stack| - 1];
    var t := visited + [curr];
    assert curr in stack;
    assert forall i :: 0 <= i < |visited| ==> t[i] == visited[i];
  }

  /** With the stack empty, every reachable object was visited and failed. */
  lemma SearchExhausted(heap: Heap, root: NodeId, pred: NodeId -> bool, seen: set<NodeId>, visited: seq<NodeId>)
    requires SearchInvariant(heap, root, pred, seen, [], visited)
    ensures forall x :: IsObject(heap, x) && Reachable(heap, root, x) ==> !pred(x)
  {
    forall x | IsObject(heap, x) && Reachable(heap, root, x) ensures !pred(x) {
      var p :| IsPath(heap, p) && p[0] == root && p[|p| - 1] == x;
      ClosedContainsReachable(heap, root, seen, p);
      assert x in visited;
    }
  }

  // ------------------------------------------------------------ shape predicates

  /** `v?.[name]` on an object node: the value of its own key `name`. */
  function Get(heap: Heap, id: NodeId, name: string): (r: Option<NodeId>)
    ensures r.Some? ==> id in heap && heap[id].Object?
  {
    if id in heap && heap[id].Object? then Lookup(heap[id].fields, name) else None
  }

  function Lookup(fields: seq<(string, NodeId)>, name: string): (r: Option<NodeId>)
    ensures r.Some? <==> exists i :: 0 <= i < |fields| && fields[i].0 == name
  {
    if fields == [] then None
    else if fields[0].0 == name then Some(fields[0].1)
    else
      var r := Lookup(fields[1..], name);
      assert forall i :: 1 <= i < |fields| ==> fields[i] == fields[1..][i - 1];
      r
  }

  /** `name in v` on an object node. */
  predicate HasKey(heap: Heap, id: NodeId, name: string) {
    Get(heap, id, name).Some?
  }

  /** JavaScript truthiness of the value under an optional id. */
  predicate Truthy(heap: Heap, v: Option<NodeId>) {
    v.Some? && v.value in heap &&
    match heap[v.value]
    case Object(_) => true
    case Array(_) => true
    case Str(s) => s != ""
    case Num(n) => n != 0
    case Bool(b) => b
    case Null => false
  }

  /** `v.acSubmissionNum` is an array whose first element has a truthy
      `difficulty`. */
  predicate SubmitStatsShape(heap: Heap, v: NodeId) {
    var a := Get(heap, v, "acSubmissionNum");
    a.Some? && a.value in heap && heap[a.value].Array? && |heap[a.value].elements| > 0
    && Truthy(heap, Get(heap, heap[a.value].elements[0], "difficulty"))
  }

  /** `typeof v.username === 'string'`. */
  predicate UserShape(heap: Heap, v: NodeId) {
    var u := Get(heap, v, "username");
    u.Some? && u.value in heap && heap[u.value].Str?
  }

  /** `'rating' in v || 'globalRanking' in v` on an object. */
  predicate RankingShape(heap: Heap, v: NodeId) {
    HasKey(heap, v, "rating") || HasKey(heap, v, "globalRanking")
  }

  /** A non-empty array whose first element has a truthy `contest` and the
      keys `startTime` and `ranking`. */
  predicate HistoryShape(heap: Heap, v: NodeId) {
    v in heap && heap[v].Array? && |heap[v].elements| > 0
    && var e := heap[v].elements[0];
       Truthy(heap, Get(heap, e, "contest")) && HasKey(heap, e, "startTime") && HasKey(heap, e, "ranking")
  }

  /** The four searches of the scrape strategy, each over the same document. */
  method LocateProfileNodes(heap: Heap, root: NodeId)
    returns (submitStats: Option<NodeId>, user: Option<NodeId>, ranking: Option<NodeId>, history: Option<NodeId>)
    ensures submitStats.Some? ==> SubmitStatsShape(heap, submitStats.value) && Reachable(heap, root, submitStats.value)
    ensures submitStats.None? ==> forall x :: IsObject(heap, x) && Reachable(heap, root, x) ==> !SubmitStatsShape(heap, x)
    ensures user.Some? ==> UserShape(heap, user.value) && Reachable(heap, root, user.value)
    ensures user.None? ==> forall x :: IsObject(heap, x) && Reachable(heap, root, x) ==> !UserShape(heap, x)
    ensures ranking.Some? ==> RankingShape(heap, ranking.value) && Reachable(heap, root, ranking.value)
    ensures ranking.None? ==> forall x :: IsObject(heap, x) && Reachable(heap, root, x) ==> !RankingShape(heap, x)
    ensures history.Some? ==> HistoryShape(heap, history.value) && Reachable(heap, root, history.value)
    ensures history.None? ==> forall x :: IsObject(heap, x) && Reachable(heap, root, x) ==> !HistoryShape(heap, x)
  {
    ghost var visited: seq<NodeId>;
    submitStats, visited := DeepFind(heap, root, (v: NodeId) => SubmitStatsShape(heap, v));
    user, visited := DeepFind(heap, root, (v: NodeId) => UserShape(heap, v));
    ranking, visited := DeepFind(heap, root, (v: NodeId) => RankingShape(heap, v));
    history, visited := DeepFind(heap, root, (v: NodeId) => HistoryShape(heap, v));
  }
}
