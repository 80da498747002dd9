/** Reachability in a finite directed graph. */
module Reachability {

  /** Successors by node, in order; a successor that is not a node is no edge. */
  type Graph = map<string, seq<string>>

  predicate IsPath(g: Graph, p: seq<string>) {
    && |p| > 0
    && (forall i :: 0 <= i < |p| ==> p[i] in g)
    && (forall i :: 0 <= i < |p| - 1 ==> p[i + 1] in g[p[i]])
  }

  ghost predicate Reachable(g: Graph, from: set<string>, n: string) {
    exists p :: IsPath(g, p) && p[0] in from && p[|p| - 1] == n
  }

  lemma StartReachable(g: Graph, from: set<string>, n: string)
    requires n in from && n in g
    ensures Reachable(g, from, n)
  {
    var p := [n];
    assert IsPath(g, p) && p[0] in from && p[|p| - 1] == n;
  }

  lemma EdgeReachable(g: Graph, from: set<string>, n: string, m: string)
    requires Reachable(g, from, n) && n in g && m in g && m in g[n]
    ensures Reachable(g, from, m)
  {
    var p :| IsPath(g, p) && p[0] in from && p[|p| - 1] == n;
    var q := p + [m];
    assert IsPath(g, q) && q[0] in from && q[|q| - 1] == m;
  }

  ghost predicate Closed(g: Graph, s: set<string>) {
    forall n, m :: n in s && n in g && m in g[n] && m in g ==> m in s
  }

  lemma {:induction false} ClosedHoldsPath(g: Graph, s: set<string>, p: seq<string>)
    requires Closed(g, s) && IsPath(g, p) && p[0] in s
    ensures p[|p| - 1] in s
    decreases |p|
  {
    if |p| > 1 {
      var q := p[..|p| - 1];
      ClosedHoldsPath(g, s, q);
      assert p[|q|] in g[q[|q| - 1]];
    }
  }

  /** A closed set that contains every start node contains everything reachable. */
  lemma ClosedHoldsReachable(g: Graph, from: set<string>, s: set<string>)
    requires Closed(g, s) && forall n :: n in from && n in g ==> n in s
    ensures forall n :: Reachable(g, from, n) ==> n in s
  {
    forall n | Reachable(g, from, n) ensures n in s {
      var p :| IsPath(g, p) && p[0] in from && p[|p| - 1] == n;
      ClosedHoldsPath(g, s, p);
    }
  }
}

/** Functions reachable by call name (scripts/check_capital_import_entrypoints.py). */
module CallGraph {
  import opened Common
  import opened Reachability

  /** A function body: plain-name calls in walk order, and every called name, attributes included. */
  datatype Body = Body(plainCalls: seq<string>, allCalls: set<string>)

  type Module = map<string, Body>

  function CallsOf(m: Module): Graph {
    map f | f in m :: m[f].plainCalls
  }

  predicate Frontier(g: Graph, visited: set<string>, stack: seq<string>) {
    forall n, c :: n in visited && n in g && c in g[n] && c in g ==> c in visited || c in stack
  }

  /** Pushes the callees of `f` that are defined here and not visited yet. */
  method PushCallees(m: Module, f: string, visited: set<string>, stack: seq<string>) returns (r: seq<string>)
    requires f in m
    ensures stack <= r
    ensures forall c :: c in r <==> c in stack || (c in m[f].plainCalls && c in m && c !in visited)
  {
    r := stack;
    var calls := m[f].plainCalls;
    for i := 0 to |calls|
      invariant stack <= r
      invariant forall c :: c in r <==> c in stack || (c in calls[..i] && c in m && c !in visited)
    {
      assert calls[..i + 1] == calls[..i] + [calls[i]];
      if calls[i] in m && calls[i] !in visited {
        r := r + [calls[i]];
      }
    }
    assert calls[..|calls|] == calls;
  }

  ghost predicate DfsInv(g: Graph, root: string, visited: set<string>, stack: seq<string>) {
    && visited <= g.Keys
    && (forall f :: f in stack ==> f in g && Reachable(g, {root}, f))
    && (forall f :: f in visited ==> Reachable(g, {root}, f))
    && (root in visited || root in stack)
    && Frontier(g, visited, stack)
  }

  lemma DfsSkips(g: Graph, root: string, visited: set<string>, stack: seq<string>)
    requires DfsInv(g, root, visited, stack) && stack != [] && stack[|stack| - 1] in visited
    ensures DfsInv(g, root, visited, stack[..|stack| - 1])
  {
    assert stack == stack[..|stack| - 1] + [stack[|stack| - 1]];
  }

  lemma DfsVisits(g: Graph, root: string, visited: set<string>, stack: seq<string>, pushed: seq<string>)
    requires DfsInv(g, root, visited, stack) && stack != [] && stack[|stack| - 1] !in visited
    requires var f, below := stack[|stack| - 1], stack[..|stack| - 1];
      forall c :: c in pushed <==> c in below || (c in g[f] && c in g && c !in visited + {f})
    ensures DfsInv(g, root, visited + {stack[|stack| - 1]}, pushed)
  {
    var f, below := stack[|stack| - 1], stack[..|stack| - 1];
    assert stack == below + [f];
    forall c | c in pushed ensures c in g && Reachable(g, {root}, c) {
      if c !in below {
        EdgeReachable(g, {root}, f, c);
      }
    }
  }

  lemma DfsDone(g: Graph, root: string, visited: set<string>)
    requires DfsInv(g, root, visited, [])
    ensures forall f :: f in visited <==> Reachable(g, {root}, f)
  {
    ClosedHoldsReachable(g, {root}, visited);
  }

  /** The depth-first walk ends on every graph, cycles included, and returns each function reachable
      from the root by call name, exactly once, and nothing else. */
  method ReachableFunctionNodes(m: Module, root: string) returns (result: seq<string>)
    ensures Distinct(result)
    ensures forall f :: f in result <==> Reachable(CallsOf(m), {root}, f)
  {
    result := [];
    ghost var g := CallsOf(m);
    if root !in m {
      return;
    }
    StartReachable(g, {root}, root);
    var visited: set<string>, stack := {}, [root];
    while stack != []
      invariant DfsInv(g, root, visited, stack)
      invariant visited == set f | f in result
      invariant Distinct(result)
      decreases g.Keys - visited, |stack|
    {
      ghost var was := stack;
      var f := stack[|stack| - 1];
      stack := stack[..|stack| - 1];
      if f in visited {
        DfsSkips(g, root, visited, was);
        continue;
      }
      assert f in was;
      var pushed := PushCallees(m, f, visited + {f}, stack);
      DfsVisits(g, root, visited, was, pushed);
      visited := visited + {f};
      result := result + [f];
      stack := pushed;
    }
    DfsDone(g, root, visited);
  }

  /** Exactly the names called in some function reachable from the root. */
  method ReachableCallNames(m: Module, root: string) returns (calls: set<string>)
    ensures forall c :: c in calls <==> exists f :: f in m && Reachable(CallsOf(m), {root}, f) && c in m[f].allCalls
  {
    calls := {};
    ghost var g := CallsOf(m);
    var nodes := ReachableFunctionNodes(m, root);
    forall f | f in nodes ensures f in m {
      ReachableIsNode(g, {root}, f);
    }
    for i := 0 to |nodes|
      invariant forall c :: c in calls <==> exists j :: 0 <= j < i && c in m[nodes[j]].allCalls
    {
      assert nodes[i] in nodes;
      calls := calls + m[nodes[i]].allCalls;
    }
    forall c | exists f :: f in m && Reachable(g, {root}, f) && c in m[f].allCalls ensures c in calls {
      var f :| f in m && Reachable(g, {root}, f) && c in m[f].allCalls;
      var j :| 0 <= j < |nodes| && nodes[j] == f;
    }
    if root in m {
      StartReachable(g, {root}, root);
      calls := calls + m[root].allCalls;
    }
  }

  lemma ReachableIsNode(g: Graph, from: set<string>, n: string)
    requires Reachable(g, from, n)
    ensures n in g
  {
  }
}

/** Task exposure as a least fixpoint (scripts/check_capital_import_entrypoints.py). */
module TaskExposure {
  import opened Common

  /** What makes a task's block count by itself. */
  datatype Signals = Signals(scriptPaths: set<string>, adapterSymbols: set<string>, functionRefs: set<string>)

  predicate MentionsAny(block: string, texts: set<string>) {
    exists t :: t in texts && Contains(block, t)
  }

  predicate Direct(block: string, s: Signals) {
    || MentionsAny(block, s.scriptPaths)
    || MentionsAny(block, s.adapterSymbols)
    || MentionsAny(block, set r | r in s.functionRefs && !Contains(r, "/"))
  }

  predicate MentionsTask(block: string, task: string) {
    || Contains(block, "task " + task)
    || Contains(block, "task:" + task)
    || Contains(block, "depends: [" + task + "]")
    || Contains(block, task)
  }

  /** The three spellings add nothing: a block mentions a task exactly when it contains its name. */
  lemma MentionsMeansContains(block: string, task: string)
    ensures MentionsTask(block, task) <==> Contains(block, task)
  {
    ContainsTail(block, "task ", task);
    ContainsTail(block, "task:", task);
    ContainsTail(block, "depends: [", task + "]");
    ContainsHead(block, task, "]");
    assert "depends: [" + task + "]" == "depends: [" + (task + "]");
  }

  lemma ContainsTail(hay: string, head: string, tail: string)
    ensures Contains(hay, head + tail) ==> Contains(hay, tail)
  {
    if Contains(hay, head + tail) {
      var i :| 0 <= i <= |hay| && head + tail <= hay[i..];
      assert hay[i..][|head|..] == hay[i + |head|..];
      assert (head + tail)[|head|..] == tail;
      assert tail <= hay[i + |head|..];
    }
  }

  lemma ContainsHead(hay: string, head: string, tail: string)
    ensures Contains(hay, head + tail) ==> Contains(hay, head)
  {
    if Contains(hay, head + tail) {
      var i :| 0 <= i <= |hay| && head + tail <= hay[i..];
      assert (head + tail)[..|head|] == head;
      assert head <= hay[i..];
    }
  }

  function TaskNames(blocks: map<string, string>): set<string> {
    blocks.Keys - {"version", "tasks"}
  }

  /** The task must be exposed once `known` is. */
  predicate Follows(blocks: map<string, string>, s: Signals, known: set<string>, task: string)
    requires task in blocks
  {
    Direct(blocks[task], s) || exists u :: u in known && MentionsTask(blocks[task], u)
  }

  predicate ClosedUnder(blocks: map<string, string>, s: Signals, known: set<string>) {
    forall t :: t in TaskNames(blocks) && Follows(blocks, s, known, t) ==> t in known
  }

  /** Contained in every closed set. */
  ghost predicate Forced(blocks: map<string, string>, s: Signals, known: set<string>) {
    forall other :: ClosedUnder(blocks, s, other) ==> known <= other
  }

  /** The changed-flag loop ends and computes the least set that holds the directly matching tasks and
      is closed under mentioning a discovered task. Tasks are visited in any order. */
  method DiscoverTaskExposures(blocks: map<string, string>, s: Signals) returns (discovered: set<string>)
    ensures discovered <= TaskNames(blocks) && discovered <= blocks.Keys && "version" !in discovered && "tasks" !in discovered
    ensures ClosedUnder(blocks, s, discovered)
    ensures Forced(blocks, s, discovered)
  {
    discovered := {};
    var changed := true;
    while changed
      invariant discovered <= TaskNames(blocks)
      invariant Forced(blocks, s, discovered)
      invariant changed || ClosedUnder(blocks, s, discovered)
      decreases TaskNames(blocks) - discovered, changed
    {
      ghost var before := discovered;
      changed := false;
      var todo := TaskNames(blocks) - discovered;
      while todo != {}
        invariant todo <= TaskNames(blocks)
        invariant before <= discovered <= TaskNames(blocks)
        invariant Forced(blocks, s, discovered)
        invariant changed <==> discovered != before
        invariant !changed ==> forall t :: t in TaskNames(blocks) - discovered - todo ==> !Follows(blocks, s, discovered, t)
        decreases todo
      {
        var task :| task in todo;
        todo := todo - {task};
        if Follows(blocks, s, discovered, task) && task !in discovered {
          StaysForced(blocks, s, discovered, task);
          discovered := discovered + {task};
          changed := true;
        }
      }
    }
  }

  lemma StaysForced(blocks: map<string, string>, s: Signals, known: set<string>, task: string)
    requires Forced(blocks, s, known) && task in TaskNames(blocks) && Follows(blocks, s, known, task)
    ensures Forced(blocks, s, known + {task})
  {
    forall other | ClosedUnder(blocks, s, other) ensures known + {task} <= other {
      assert known <= other;
      assert Follows(blocks, s, other, task);
    }
  }

  /** The block contains a script path, an adapter symbol, or a function reference that is no path. */
  predicate Signalled(block: string, s: Signals) {
    || (exists t :: t in s.scriptPaths && Contains(block, t))
    || (exists t :: t in s.adapterSymbols && Contains(block, t))
    || (exists t :: t in s.functionRefs && !Contains(t, "/") && Contains(block, t))
  }

  /** Every task found was signalled or contains the name of another task found, and no other task does. */
  lemma FoundExactly(blocks: map<string, string>, s: Signals, found: set<string>, task: string)
    requires found <= TaskNames(blocks) && ClosedUnder(blocks, s, found) && Forced(blocks, s, found)
    requires task in blocks && task !in {"version", "tasks"}
    ensures task in found <==>
      Signalled(blocks[task], s) || exists u :: u in found && u != task && Contains(blocks[task], u)
  {
    var caused := set t | t in found
      && (Signalled(blocks[t], s) || exists u :: u in found && u != t && Contains(blocks[t], u));
    forall t | t in TaskNames(blocks) && Follows(blocks, s, caused, t) ensures t in caused {
      SignalsFollow(blocks, s, caused, t);
      SignalsFollow(blocks, s, found, t);
    }
    assert found <= caused;
    SignalsFollow(blocks, s, found, task);
  }

  lemma SignalsFollow(blocks: map<string, string>, s: Signals, known: set<string>, task: string)
    requires task in blocks
    ensures Follows(blocks, s, known, task) <==>
      Signalled(blocks[task], s) || exists u :: u in known && Contains(blocks[task], u)
  {
    forall u ensures MentionsTask(blocks[task], u) <==> Contains(blocks[task], u) {
      MentionsMeansContains(blocks[task], u);
    }
  }

  /** There is only one such set, so the order of iteration does not matter. */
  lemma LeastSetUnique(blocks: map<string, string>, s: Signals, a: set<string>, b: set<string>)
    requires ClosedUnder(blocks, s, a) && Forced(blocks, s, a)
    requires ClosedUnder(blocks, s, b) && Forced(blocks, s, b)
    ensures a == b
  {
    assert a <= b && b <= a;
  }
}

/** Navigation over maintained documents (scripts/sync_current_docs.py). */
module DocNavigation {
  import opened Common
  import opened Reachability
  import StringOrder

  /** A link's resolved target, or `None` for an external or empty link. */
  datatype Link = Link(raw: string, target: Option<Target>)

  datatype Target = Target(path: string, markdown: bool, inRepository: bool, present: bool)

  /** An existing file, by resolved path. */
  datatype Doc = Doc(markdown: bool, maintained: bool, links: seq<Link>)

  type Docs = map<string, Doc>

  predicate Maintained(docs: Docs, path: string) {
    path in docs && docs[path].markdown && docs[path].maintained
  }

  function MarkdownTargets(links: seq<Link>): seq<string> {
    if links == [] then []
    else
      var t := links[0].target;
      (if t.Some? && t.value.markdown then [t.value.path] else []) + MarkdownTargets(links[1..])
  }

  /** Maintained documents and the Markdown links between them; `resolve` canonicalises a path. */
  function LinkGraph(docs: Docs, resolve: string -> string): Graph {
    map d | d in docs && Maintained(docs, d) :: Resolved(MarkdownTargets(docs[d].links), resolve)
  }

  function Resolved(paths: seq<string>, resolve: string -> string): seq<string> {
    seq(|paths|, i requires 0 <= i < |paths| => resolve(paths[i]))
  }

  lemma {:induction false} MarkdownTargetsExact(links: seq<Link>)
    ensures forall path :: path in MarkdownTargets(links) <==>
      exists l :: l in links && l.target.Some? && l.target.value.markdown && l.target.value.path == path
  {
    if links != [] {
      MarkdownTargetsExact(links[1..]);
      assert links == [links[0]] + links[1..];
    }
  }

  /** The nodes are the maintained documents, and the edges their links to Markdown files. */
  lemma LinkGraphExact(docs: Docs, resolve: string -> string, d: string, m: string)
    ensures d in LinkGraph(docs, resolve) <==> d in docs && docs[d].markdown && docs[d].maintained
    ensures d in LinkGraph(docs, resolve) ==>
      (m in LinkGraph(docs, resolve)[d] <==>
         exists l :: l in docs[d].links && l.target.Some? && l.target.value.markdown && resolve(l.target.value.path) == m)
  {
    if d in LinkGraph(docs, resolve) {
      var targets := MarkdownTargets(docs[d].links);
      MarkdownTargetsExact(docs[d].links);
      if l :| l in docs[d].links && l.target.Some? && l.target.value.markdown && resolve(l.target.value.path) == m {
        assert l.target.value.path in targets;
        var i :| 0 <= i < |targets| && targets[i] == l.target.value.path;
        assert Resolved(targets, resolve)[i] == m;
      }
      if m in Resolved(targets, resolve) {
        var i :| 0 <= i < |targets| && Resolved(targets, resolve)[i] == m;
        assert targets[i] in targets;
      }
    }
  }

  ghost function Starts(entrypoints: seq<string>, resolve: string -> string): set<string> {
    set e | e in entrypoints :: resolve(e)
  }

  /** The maintained documents reachable from the entrypoints through maintained documents only. */
  ghost function CurrentDocs(docs: Docs, resolve: string -> string, entrypoints: seq<string>): set<string> {
    set d | d in docs && Reachable(LinkGraph(docs, resolve), Starts(entrypoints, resolve), d)
  }

  /** Every node still owed to the walk is in the queue under some spelling. */
  predicate Pending(queue: seq<string>, resolve: string -> string, n: string) {
    exists i :: 0 <= i < |queue| && resolve(queue[i]) == n
  }

  /** Everything seen or queued is reachable. */
  ghost predicate WalkSound(g: Graph, from: set<string>, resolve: string -> string, seen: set<string>, queue: seq<string>) {
    && seen <= g.Keys
    && (forall n :: n in seen ==> Reachable(g, from, n))
    && (forall i :: 0 <= i < |queue| && resolve(queue[i]) in g ==> Reachable(g, from, resolve(queue[i])))
  }

  /** Every start and every successor of a seen node is seen or still queued. */
  predicate WalkComplete(g: Graph, from: set<string>, resolve: string -> string, seen: set<string>, queue: seq<string>) {
    && (forall n :: n in from && n in g ==> n in seen || Pending(queue, resolve, n))
    && (forall n, m :: n in seen && n in g && m in g[n] && m in g ==> m in seen || Pending(queue, resolve, m))
  }

  ghost predicate WalkInv(g: Graph, from: set<string>, resolve: string -> string, seen: set<string>, queue: seq<string>) {
    WalkSound(g, from, resolve, seen, queue) && WalkComplete(g, from, resolve, seen, queue)
  }

  /** The breadth-first walk ends and returns exactly the maintained documents reachable from the
      entrypoints through maintained documents only. */
  method CurrentMarkdownPaths(docs: Docs, resolve: string -> string, entrypoints: seq<string>)
    returns (paths: seq<string>)
    ensures Distinct(paths) && paths == StringOrder.Sorted(CurrentDocs(docs, resolve, entrypoints))
    ensures forall d :: d in paths <==> Reachable(LinkGraph(docs, resolve), Starts(entrypoints, resolve), d)
    ensures forall d :: d in paths ==> d in docs
  {
    ghost var g := LinkGraph(docs, resolve);
    ghost var from := Starts(entrypoints, resolve);
    var queue, seen: set<string> := entrypoints, {};
    WalkStarts(g, resolve, entrypoints);
    while queue != []
      invariant WalkInv(g, from, resolve, seen, queue)
      decreases g.Keys - seen, |queue|
    {
      var path := resolve(queue[0]);
      ghost var was := queue;
      queue := queue[1..];
      if path in seen || path !in docs || !docs[path].markdown || !docs[path].maintained {
        WalkSkips(g, from, resolve, seen, was);
        continue;
      }
      var more := MarkdownTargets(docs[path].links);
      WalkVisits(g, from, resolve, seen, was, more);
      seen := seen + {path};
      queue := queue + more;
    }
    WalkDone(g, from, resolve, seen);
    assert seen == CurrentDocs(docs, resolve, entrypoints);
    paths := StringOrder.Sorted(seen);
  }

  lemma WalkDone(g: Graph, from: set<string>, resolve: string -> string, seen: set<string>)
    requires WalkInv(g, from, resolve, seen, [])
    ensures forall d :: d in seen <==> Reachable(g, from, d)
  {
    ClosedHoldsReachable(g, from, seen);
  }

  lemma WalkStarts(g: Graph, resolve: string -> string, entrypoints: seq<string>)
    ensures WalkInv(g, Starts(entrypoints, resolve), resolve, {}, entrypoints)
  {
    var from := Starts(entrypoints, resolve);
    forall i | 0 <= i < |entrypoints| && resolve(entrypoints[i]) in g
      ensures Reachable(g, from, resolve(entrypoints[i]))
    {
      StartReachable(g, from, resolve(entrypoints[i]));
    }
    forall n | n in from ensures Pending(entrypoints, resolve, n) {
      var e :| e in entrypoints && resolve(e) == n;
      var i :| 0 <= i < |entrypoints| && entrypoints[i] == e;
    }
  }

  lemma PendingRest(queue: seq<string>, resolve: string -> string, n: string)
    requires queue != [] && Pending(queue, resolve, n) && resolve(queue[0]) != n
    ensures Pending(queue[1..], resolve, n)
  {
    var i :| 0 <= i < |queue| && resolve(queue[i]) == n;
    assert queue[1..][i - 1] == queue[i];
  }

  lemma WalkSkips(g: Graph, from: set<string>, resolve: string -> string, seen: set<string>, queue: seq<string>)
    requires WalkInv(g, from, resolve, seen, queue) && queue != []
    requires resolve(queue[0]) in seen || resolve(queue[0]) !in g
    ensures WalkInv(g, from, resolve, seen, queue[1..])
  {
    forall n | n in g && n !in seen && Pending(queue, resolve, n) ensures Pending(queue[1..], resolve, n) {
      PendingRest(queue, resolve, n);
    }
  }

  lemma PendingAppend(queue: seq<string>, more: seq<string>, resolve: string -> string, n: string)
    requires Pending(queue, resolve, n) || n in Resolved(more, resolve)
    ensures Pending(queue + more, resolve, n)
  {
    var all := queue + more;
    if i :| 0 <= i < |queue| && resolve(queue[i]) == n {
      assert all[i] == queue[i];
    } else {
      var i :| 0 <= i < |more| && Resolved(more, resolve)[i] == n;
      assert all[|queue| + i] == more[i];
    }
  }

  lemma WalkVisits(g: Graph, from: set<string>, resolve: string -> string, seen: set<string>, queue: seq<string>,
                   more: seq<string>)
    requires WalkInv(g, from, resolve, seen, queue) && queue != []
    requires resolve(queue[0]) in g && g[resolve(queue[0])] == Resolved(more, resolve)
    ensures WalkInv(g, from, resolve, seen + {resolve(queue[0])}, queue[1..] + more)
  {
    VisitSound(g, from, resolve, seen, queue, more);
    VisitComplete(g, from, resolve, seen, queue, more);
  }

  lemma VisitSound(g: Graph, from: set<string>, resolve: string -> string, seen: set<string>, queue: seq<string>,
                   more: seq<string>)
    requires WalkSound(g, from, resolve, seen, queue) && queue != []
    requires resolve(queue[0]) in g && g[resolve(queue[0])] == Resolved(more, resolve)
    ensures WalkSound(g, from, resolve, seen + {resolve(queue[0])}, queue[1..] + more)
  {
    var path, rest := resolve(queue[0]), queue[1..] + more;
    assert Reachable(g, from, path);
    forall i | 0 <= i < |rest| && resolve(rest[i]) in g ensures Reachable(g, from, resolve(rest[i])) {
      if i < |queue| - 1 {
        assert rest[i] == queue[i + 1];
      } else {
        assert Resolved(more, resolve)[i - (|queue| - 1)] == resolve(rest[i]);
        EdgeReachable(g, from, path, resolve(rest[i]));
      }
    }
  }

  lemma VisitComplete(g: Graph, from: set<string>, resolve: string -> string, seen: set<string>, queue: seq<string>,
                      more: seq<string>)
    requires WalkComplete(g, from, resolve, seen, queue) && queue != []
    requires resolve(queue[0]) in g && g[resolve(queue[0])] == Resolved(more, resolve)
    ensures WalkComplete(g, from, resolve, seen + {resolve(queue[0])}, queue[1..] + more)
  {
    var path, rest := resolve(queue[0]), queue[1..] + more;
    forall n | Pending(queue, resolve, n) && n != path ensures Pending(rest, resolve, n) {
      PendingRest(queue, resolve, n);
      PendingAppend(queue[1..], more, resolve, n);
    }
    forall n | n in g[path] ensures Pending(rest, resolve, n) {
      PendingAppend(queue[1..], more, resolve, n);
    }
  }

  datatype Failure = LinksOutside(doc: string, raw: string) | LinksMissing(doc: string, target: string)

  /** A link that leaves the document set soundly: external, or inside the repository and present. */
  predicate SoundLink(l: Link) {
    l.target.Some? ==> l.target.value.inRepository && l.target.value.present
  }

  function FailureOf(doc: string, l: Link): seq<Failure> {
    if SoundLink(l) then []
    else if !l.target.value.inRepository then [LinksOutside(doc, l.raw)]
    else [LinksMissing(doc, l.target.value.path)]
  }

  predicate SoundDoc(docs: Docs, d: string) {
    d in docs ==> forall l :: l in docs[d].links ==> SoundLink(l)
  }

  function LinkFailures(doc: string, links: seq<Link>): seq<Failure> {
    if links == [] then [] else LinkFailures(doc, links[..|links| - 1]) + FailureOf(doc, links[|links| - 1])
  }

  /** The failures of every link of every document, in order. */
  function NavigationFailures(docs: Docs, paths: seq<string>): seq<Failure> {
    if paths == [] then []
    else
      var d := paths[|paths| - 1];
      NavigationFailures(docs, paths[..|paths| - 1]) + (if d in docs then LinkFailures(d, docs[d].links) else [])
  }

  /** `f` says of a link of its document what is wrong: its text, when it leaves the repository; its target,
      when it stays there and nothing is found. */
  predicate Says(f: Failure, l: Link) {
    match f
    case LinksOutside(_, raw) => l.raw == raw && l.target.Some? && !l.target.value.inRepository
    case LinksMissing(_, target) =>
      l.target.Some? && l.target.value.inRepository && !l.target.value.present && l.target.value.path == target
  }

  ghost predicate Reports(docs: Docs, f: Failure) {
    f.doc in docs && exists l :: l in docs[f.doc].links && Says(f, l)
  }

  lemma FailureSays(doc: string, l: Link, f: Failure)
    ensures f in FailureOf(doc, l) <==> f.doc == doc && Says(f, l)
  {
  }

  lemma {:induction false} LinkFailuresExact(doc: string, links: seq<Link>)
    ensures forall f :: f in LinkFailures(doc, links) <==> f.doc == doc && exists l :: l in links && Says(f, l)
  {
    if links != [] {
      var init, last := links[..|links| - 1], links[|links| - 1];
      LinkFailuresExact(doc, init);
      assert links == init + [last];
      forall f ensures f in FailureOf(doc, last) <==> f.doc == doc && Says(f, last) {
        FailureSays(doc, last, f);
      }
    }
  }

  lemma {:induction false} NavigationFailuresExact(docs: Docs, paths: seq<string>)
    ensures forall f :: f in NavigationFailures(docs, paths) <==> f.doc in paths && Reports(docs, f)
  {
    if paths != [] {
      var init, d := paths[..|paths| - 1], paths[|paths| - 1];
      NavigationFailuresExact(docs, init);
      assert paths == init + [d];
      if d in docs {
        LinkFailuresExact(d, docs[d].links);
      }
    }
  }

  lemma CleanIffSound(docs: Docs, paths: seq<string>)
    ensures NavigationFailures(docs, paths) == [] <==> forall d :: d in paths ==> SoundDoc(docs, d)
  {
    NavigationFailuresExact(docs, paths);
    var failures := NavigationFailures(docs, paths);
    if failures != [] {
      assert failures[0] in failures && Reports(docs, failures[0]);
      var l :| l in docs[failures[0].doc].links && Says(failures[0], l);
      assert !SoundDoc(docs, failures[0].doc);
    } else if d :| d in paths && !SoundDoc(docs, d) {
      var l :| l in docs[d].links && !SoundLink(l);
      var f := FailureOf(d, l)[0];
      FailureSays(d, l, f);
      assert f.doc == d && Reports(docs, f);
    }
  }

  /** Exactly one failure, in path and link order, for each link out of a current document that leaves
      the repository or does not exist; so the check is clean exactly when there is none. */
  method ValidateNavigation(docs: Docs, resolve: string -> string, entrypoints: seq<string>)
    returns (failures: seq<Failure>)
    ensures failures == NavigationFailures(docs, StringOrder.Sorted(CurrentDocs(docs, resolve, entrypoints)))
    ensures forall f :: f in failures <==>
      Reachable(LinkGraph(docs, resolve), Starts(entrypoints, resolve), f.doc) && Reports(docs, f)
    ensures failures == [] <==>
      forall d :: Reachable(LinkGraph(docs, resolve), Starts(entrypoints, resolve), d) ==> SoundDoc(docs, d)
  {
    var paths := CurrentMarkdownPaths(docs, resolve, entrypoints);
    failures := FailuresOf(docs, paths);
    NavigationFailuresExact(docs, paths);
    CleanIffSound(docs, paths);
  }

  lemma NavigationStep(docs: Docs, paths: seq<string>, n: nat)
    requires n < |paths| && paths[n] in docs
    ensures NavigationFailures(docs, paths[..n + 1]) ==
      NavigationFailures(docs, paths[..n]) + LinkFailures(paths[n], docs[paths[n]].links)
  {
    assert paths[..n + 1][..n] == paths[..n];
  }

  method FailuresOf(docs: Docs, paths: seq<string>) returns (failures: seq<Failure>)
    requires forall d :: d in paths ==> d in docs
    ensures failures == NavigationFailures(docs, paths)
  {
    failures := [];
    for n := 0 to |paths|
      invariant failures == NavigationFailures(docs, paths[..n])
    {
      NavigationStep(docs, paths, n);
      var found := FailuresIn(paths[n], docs[paths[n]].links);
      failures := failures + found;
    }
    assert paths[..|paths|] == paths;
  }

  method FailuresIn(doc: string, links: seq<Link>) returns (failures: seq<Failure>)
    ensures failures == LinkFailures(doc, links)
  {
    failures := [];
    for i := 0 to |links|
      invariant failures == LinkFailures(doc, links[..i])
    {
      assert links[..i + 1][..i] == links[..i];
      failures := failures + FailureOf(doc, links[i]);
    }
    assert links[..|links|] == links;
  }
}
