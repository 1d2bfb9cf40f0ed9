/** Loading a package set: a depth-first search with an explicit stack over requirements, which refuses cycles,
    depth and size; then the import check, the direct flags and the canonical order. */
module PackageGraph {
  import opened Finite
  import opened Graphs
  import opened ResourceIds
  import opened Texts

  const MAX_SET := 16
  const MAX_DEPTH := 8

  datatype Rid = Rid(id: string, kind: Kind)
  datatype Need = Need(package: string, imports: seq<string>)
  datatype Decl = Decl(declared: bool, id: string, needs: seq<Need>, offers: seq<Rid>)

  /** A loaded library: its declaration, whether the root requires it, and what it holds. */
  datatype Dep<+C> = Dep(decl: Decl, direct: bool, content: C)

  /** What the source answers for a package it has. */
  datatype Answer<+C> = Unloadable | Library(decl: Decl, content: C)
  type Source<+C> = map<string, Answer<C>>

  datatype Node = Root | Lib(id: string)

  datatype Outcome =
    | Loaded
    | Cycle(path: seq<Node>)
    | TooDeep(path: seq<Node>)
    | TooMany(id: string)
    | NotPresent(id: string)
    | NotLoadable(id: string)
    | WrongId(id: string)
    | NotProvided(user: Node, package: string, resource: string)

  // ----- the requirement graph

  function Target(root: Decl, id: string): Node {
    if root.declared && root.id == id then Root else Lib(id)
  }

  function DeclOf<C>(root: Decl, src: Source<C>, n: Node): Decl {
    match n
    case Root => root
    case Lib(id) => if id in src && src[id].Library? then src[id].decl else Decl(false, "", [], [])
  }

  function Targets(root: Decl, needs: seq<Need>): (r: seq<Node>)
    ensures |r| == |needs| && forall i :: 0 <= i < |r| ==> r[i] == Target(root, needs[i].package)
  {
    seq(|needs|, i requires 0 <= i < |needs| => Target(root, needs[i].package))
  }

  function Requirements<C>(root: Decl, src: Source<C>): Succ<Node> {
    (n: Node) => Targets(root, DeclOf(root, src, n).needs)
  }

  ghost predicate Offers(d: Decl, resource: string) {
    exists i :: 0 <= i < |d.offers| && d.offers[i].id == resource
  }

  ghost predicate ImportsOffered<C>(root: Decl, src: Source<C>, n: Node) {
    var d := DeclOf(root, src, n);
    forall i, j :: 0 <= i < |d.needs| && 0 <= j < |d.needs[i].imports| ==>
      Offers(DeclOf(root, src, Target(root, d.needs[i].package)), d.needs[i].imports[j])
  }

  /** The leftmost path from the root, the one the search finds a package by, has so many links. */
  ghost predicate FoundAt<C>(root: Decl, src: Source<C>, n: Node, p: seq<Node>, links: seq<nat>) {
    Leftmost(Requirements(root, src), p, links, Root, n) && Distinct(p)
  }

  ghost predicate FoundBy<C>(root: Decl, src: Source<C>, n: Node, p: seq<Node>) {
    exists links :: FoundAt(root, src, n, p, links)
  }

  /** It has at most eight. */
  ghost predicate Near<C>(root: Decl, src: Source<C>, n: Node) {
    exists p, links :: FoundAt(root, src, n, p, links) && |links| <= MAX_DEPTH
  }

  // ----- what a set holds

  function Names<C>(deps: seq<Dep<C>>): (r: seq<string>)
    ensures |r| == |deps| && forall i :: 0 <= i < |r| ==> r[i] == deps[i].decl.id
  {
    seq(|deps|, i requires 0 <= i < |deps| => deps[i].decl.id)
  }

  /** The library the source has under the ID it declares. */
  ghost predicate FromSource<C>(src: Source<C>, dep: Dep<C>) {
    dep.decl.id in src && src[dep.decl.id] == Library(dep.decl, dep.content)
  }

  /** Exactly the reachable packages, each once, each near the root, and no cycle among them. */
  ghost predicate Closed<C>(root: Decl, src: Source<C>, deps: seq<Dep<C>>) {
    var succ := Requirements(root, src);
    && |deps| < MAX_SET && Distinct(Names(deps))
    && (forall id :: id in Names(deps) <==> Reachable(succ, Root, Lib(id)))
    && (forall id :: id in Names(deps) ==> Near(root, src, Lib(id)))
    && (forall d :: d in deps ==> FromSource(src, d))
    && (forall p :: IsCycle(succ, p) ==> !Reachable(succ, Root, p[0]))
  }

  ghost predicate DirectKnown<C>(root: Decl, deps: seq<Dep<C>>, upto: nat)
    requires upto <= |root.needs|
  {
    forall k :: 0 <= k < |deps| ==> (deps[k].direct <==> Lib(deps[k].decl.id) in Targets(root, root.needs)[..upto])
  }

  ghost predicate AllImportsOffered<C>(root: Decl, src: Source<C>) {
    forall n :: Reachable(Requirements(root, src), Root, n) ==> ImportsOffered(root, src, n)
  }

  /** What loading promises. */
  ghost predicate Complete<C>(root: Decl, src: Source<C>, deps: seq<Dep<C>>) {
    && Closed(root, src, deps) && Ascending(Names(deps))
    && DirectKnown(root, deps, |root.needs|) && AllImportsOffered(root, src)
  }

  /** Every refusal names something that is really there. */
  ghost predicate Justified<C>(root: Decl, src: Source<C>, r: Outcome) {
    var succ := Requirements(root, src);
    match r
    case Loaded => true
    case Cycle(p) => IsCycle(succ, p) && Reachable(succ, Root, p[0])
    case TooDeep(p) => |p| == MAX_DEPTH + 2 && FoundBy(root, src, p[|p| - 1], p)
    case TooMany(_) => exists w: seq<Node> :: Distinct(w) && |w| == MAX_SET + 1 && forall i :: 0 <= i < |w| ==>
      Reachable(succ, Root, w[i])
    case NotPresent(id) => Reachable(succ, Root, Lib(id)) && id !in src
    case NotLoadable(id) => Reachable(succ, Root, Lib(id)) && id in src && src[id].Unloadable?
    case WrongId(id) => Reachable(succ, Root, Lib(id)) && id in src && src[id].Library? && src[id].decl.id != id
    case NotProvided(user, package, resource) =>
      && Reachable(succ, Root, user) && !ImportsOffered(root, src, user)
      && !Offers(DeclOf(root, src, Target(root, package)), resource)
  }

  // ----- nodes by number: 0 the root, then the libraries as found

  function NodeAt<C>(deps: seq<Dep<C>>, i: nat): Node
    requires i <= |deps|
  {
    if i == 0 then Root else Lib(deps[i - 1].decl.id)
  }

  method NodeOf<C>(root: Decl, deps: seq<Dep<C>>, id: string) returns (found: int)
    ensures -1 <= found <= |deps|
    ensures found >= 0 ==> NodeAt(deps, found) == Target(root, id)
    ensures found < 0 ==> Target(root, id).Lib? && id !in Names(deps)
  {
    if root.declared && root.id == id {
      return 0;
    }
    for i := 0 to |deps|
      invariant forall j :: 0 <= j < i ==> deps[j].decl.id != id
    {
      if deps[i].decl.id == id {
        return i + 1;
      }
    }
    found := -1;
  }

  // ----- what the search keeps

  ghost predicate Walking<C>(root: Decl, src: Source<C>, deps: seq<Dep<C>>, stack: seq<nat>, next: seq<nat>,
    gray: seq<bool>, path: seq<Node>, order: seq<Node>) {
    && Search(Requirements(root, src), path, next, order)
    && Numbered(deps, stack, path)
    && Gathered(src, deps)
    && Coloured(deps, gray, path, order)
    && Placed(root, src, path, order)
  }

  ghost predicate Numbered<C>(deps: seq<Dep<C>>, stack: seq<nat>, path: seq<Node>) {
    |stack| == |path| && forall i :: 0 <= i < |stack| ==> stack[i] <= |deps| && NodeAt(deps, stack[i]) == path[i]
  }

  ghost predicate Gathered<C>(src: Source<C>, deps: seq<Dep<C>>) {
    && |deps| < MAX_SET && Distinct(Names(deps))
    && forall i :: 0 <= i < |deps| ==> FromSource(src, deps[i]) && !deps[i].direct
  }

  ghost predicate Coloured<C>(deps: seq<Dep<C>>, gray: seq<bool>, path: seq<Node>, order: seq<Node>) {
    && |gray| == MAX_SET && |deps| < MAX_SET
    && (forall i: nat :: i <= |deps| ==>
      (gray[i] <==> NodeAt(deps, i) in path) &&
      (!gray[i] <==> NodeAt(deps, i) in order))
    && (forall id :: Lib(id) in path || Lib(id) in order ==> id in Names(deps))
  }

  ghost predicate Placed<C>(root: Decl, src: Source<C>, path: seq<Node>, order: seq<Node>) {
    && |path| <= MAX_DEPTH + 1 && (|path| > 0 ==> path[0] == Root)
    && (forall n :: n in path || n in order ==> Near(root, src, n))
  }

  lemma StartWalk<C>(root: Decl, src: Source<C>, gray: seq<bool>)
    requires gray == seq(MAX_SET, i => i == 0)
    ensures Walking(root, src, [], [0], [0], gray, [Root], [])
  {
    hide Search;
    var none: seq<Node> := [];
    var deps: seq<Dep<C>> := [];
    SearchNothing(Requirements(root, src));
    SearchStart(Requirements(root, src), none, Root);
    assert Joins(Requirements(root, src), [Root], Root, Root);
    assert FoundAt(root, src, Root, [Root], []);
    assert Near(root, src, Root);
    assert NodeAt(deps, 0) in [Root];
  }

  /** The walk's numbers are in range, and the top's declaration is the one the graph has. */
  lemma WalkFacts<C>(root: Decl, src: Source<C>, deps: seq<Dep<C>>, stack: seq<nat>, next: seq<nat>, gray: seq<bool>,
                     path: seq<Node>, order: seq<Node>)
    requires Walking(root, src, deps, stack, next, gray, path, order)
    ensures |stack| == |next| == |path| <= MAX_DEPTH + 1 && |gray| == MAX_SET && |deps| < MAX_SET
    ensures |stack| > 0 ==>
      stack[|stack| - 1] <= |deps| &&
      next[|stack| - 1] <= |DeclAt(root, deps, stack[|stack| - 1]).needs|
    ensures |stack| > 0 ==>
      Requirements(root, src)(path[|stack| - 1]) ==
      Targets(root, DeclAt(root, deps, stack[|stack| - 1]).needs)
  {}

  function DeclAt<C>(root: Decl, deps: seq<Dep<C>>, i: nat): Decl
    requires i <= |deps|
  {
    if i == 0 then root else deps[i - 1].decl
  }

  lemma DeclAtIsDeclOf<C>(root: Decl, src: Source<C>, deps: seq<Dep<C>>, i: nat)
    requires i <= |deps| && forall d :: d in deps ==> FromSource(src, d)
    ensures DeclAt(root, deps, i) == DeclOf(root, src, NodeAt(deps, i))
  {
    if i > 0 {
      assert deps[i - 1] in deps;
    }
  }

  lemma NodesDiffer<C>(deps: seq<Dep<C>>, i: nat, j: nat)
    requires Distinct(Names(deps)) && i <= |deps| && j <= |deps| && NodeAt(deps, i) == NodeAt(deps, j)
    ensures i == j
  {
    if i > 0 && j > 0 {
      assert Names(deps)[i - 1] == Names(deps)[j - 1];
    }
  }

  lemma PopStep<C>(root: Decl, src: Source<C>, deps: seq<Dep<C>>, stack: seq<nat>, next: seq<nat>, gray: seq<bool>,
                   path: seq<Node>, order: seq<Node>)
    requires Walking(root, src, deps, stack, next, gray, path, order) && |stack| > 0 && |next| == |path| == |stack|
    requires stack[|stack| - 1] <= |deps| < |gray| && next[|stack| - 1] == |Requirements(root, src)(path[|stack| - 1])|
    ensures var t := |stack| - 1;
      Walking(root, src, deps, stack[..t], next[..t], gray[stack[t] := false], path[..t], order + [path[t]])
  {
    hide Search, Gathered, Near, Requirements;
    var t := |stack| - 1;
    SearchPop(Requirements(root, src), path, next, order);
    TopIsNew(Requirements(root, src), path, next, order);
    assert path == path[..t] + [path[t]];
    PopColours(src, deps, gray, path[..t], order, stack[t], path[t]);
  }

  lemma PopColours<C>(src: Source<C>, deps: seq<Dep<C>>, gray: seq<bool>, path: seq<Node>, order: seq<Node>, at: nat,
    n: Node)
    requires Gathered(src, deps) && Coloured(deps, gray, path + [n], order)
    requires at <= |deps| && NodeAt(deps, at) == n && n !in order && n !in path
    ensures Coloured(deps, gray[at := false], path, order + [n])
  {
    hide FromSource;
    forall i: nat | i <= |deps|
      ensures gray[at := false][i] <==> NodeAt(deps, i) in path
      ensures !gray[at := false][i] <==> NodeAt(deps, i) in order + [n]
    {
      assert NodeAt(deps, i) in path + [n] <==> NodeAt(deps, i) in path || NodeAt(deps, i) == n;
      if NodeAt(deps, i) == n { NodesDiffer(deps, i, at); }
    }
  }

  lemma SkipStep<C>(root: Decl, src: Source<C>, deps: seq<Dep<C>>, stack: seq<nat>, next: seq<nat>, gray: seq<bool>,
                    path: seq<Node>, order: seq<Node>, found: nat)
    requires Walking(root, src, deps, stack, next, gray, path, order) && |stack| > 0 && |next| == |path| == |stack|
    requires found <= |deps| < |gray| && !gray[found] &&
      next[|stack| - 1] < |Requirements(root, src)(path[|stack| - 1])|
    requires NodeAt(deps, found) == Requirements(root, src)(path[|stack| - 1])[next[|stack| - 1]]
    ensures Walking(root, src, deps, stack, next[|stack| - 1 := next[|stack| - 1] + 1], gray, path, order)
  {
    hide Search, Gathered, Placed, Requirements;
    SearchSkip(Requirements(root, src), path, next, order);
  }

  lemma CycleStep<C>(root: Decl, src: Source<C>, deps: seq<Dep<C>>, stack: seq<nat>, next: seq<nat>, gray: seq<bool>,
                     path: seq<Node>, order: seq<Node>, from: nat, trail: seq<Node>)
    requires Walking(root, src, deps, stack, next, gray, path, order) && |stack| > 0 && |next| == |path| == |stack|
    requires next[|stack| - 1] < |Requirements(root, src)(path[|stack| - 1])|
    requires from < |stack| && path[from] == Requirements(root, src)(path[|stack| - 1])[next[|stack| - 1]]
    requires trail == path[from..]
    ensures Justified(root, src, Cycle(trail + [path[from]]))
  {
    hide Search, Gathered, Coloured, Requirements;
    SearchCycle(Requirements(root, src), path, next, order, from);
    assert path[from] in path;
    NearIsReachable(root, src, path[from]);
  }

  lemma NearIsReachable<C>(root: Decl, src: Source<C>, n: Node)
    requires Near(root, src, n)
    ensures Reachable(Requirements(root, src), Root, n)
  {
    var p, links :| FoundAt(root, src, n, p, links) && |links| <= MAX_DEPTH;
  }

  /** The path on the stack, one requirement further, is the leftmost. */
  lemma PathOn<C>(root: Decl, src: Source<C>, deps: seq<Dep<C>>, stack: seq<nat>, next: seq<nat>, gray: seq<bool>,
                  path: seq<Node>, order: seq<Node>, id: string)
    requires Walking(root, src, deps, stack, next, gray, path, order) && |stack| > 0 && |next| == |path| == |stack|
    requires next[|stack| - 1] < |Requirements(root, src)(path[|stack| - 1])| && id !in Names(deps)
    requires Lib(id) == Requirements(root, src)(path[|stack| - 1])[next[|stack| - 1]]
    ensures FoundBy(root, src, Lib(id), path + [Lib(id)])
    ensures Reachable(Requirements(root, src), Root, Lib(id))
    ensures |path| <= MAX_DEPTH ==> Near(root, src, Lib(id))
  {
    hide Search, Gathered, Requirements;
    var n := Lib(id);
    NotFoundIsNew(deps, gray, path, order, id);
    var links := SearchLeftmost(Requirements(root, src), path, next, order, n);
    PathIsDistinct(Requirements(root, src), path, next, order);
    assert FoundAt(root, src, n, path + [n], links);
  }

  /** A package not found among the loaded ones is neither on the stack nor finished. */
  lemma NotFoundIsNew<C>(deps: seq<Dep<C>>, gray: seq<bool>, path: seq<Node>, order: seq<Node>, id: string)
    requires Coloured(deps, gray, path, order) && id !in Names(deps)
    ensures Lib(id) !in path && Lib(id) !in order
  {}

  lemma DeepStep<C>(root: Decl, src: Source<C>, deps: seq<Dep<C>>, stack: seq<nat>, next: seq<nat>, gray: seq<bool>,
                    path: seq<Node>, order: seq<Node>, id: string)
    requires Walking(root, src, deps, stack, next, gray, path, order) && |stack| > MAX_DEPTH &&
      |next| == |path| == |stack|
    requires next[|stack| - 1] < |Requirements(root, src)(path[|stack| - 1])| && id !in Names(deps)
    requires Lib(id) == Requirements(root, src)(path[|stack| - 1])[next[|stack| - 1]]
    ensures Justified(root, src, TooDeep(path + [Lib(id)]))
  {
    hide Search, Gathered, Requirements;
    PathOn(root, src, deps, stack, next, gray, path, order, id);
  }

  lemma PathIsDistinct(succ: Succ<Node>, path: seq<Node>, next: seq<nat>, order: seq<Node>)
    requires Search(succ, path, next, order)
    ensures Distinct(path)
  {
    forall i, k | 0 <= i < k < |path| ensures path[i] != path[k] {
      assert (path + order)[i] != (path + order)[k];
    }
  }

  lemma ManyStep<C>(root: Decl, src: Source<C>, deps: seq<Dep<C>>, stack: seq<nat>, next: seq<nat>, gray: seq<bool>,
                    path: seq<Node>, order: seq<Node>, id: string)
    requires Walking(root, src, deps, stack, next, gray, path, order) && |deps| == MAX_SET - 1 && id !in Names(deps)
    requires Reachable(Requirements(root, src), Root, Lib(id))
    ensures Justified(root, src, TooMany(id))
  {
    hide Search, Requirements, FromSource, Near, Reachable;
    var all := seq(|deps| + 1, i requires 0 <= i < |deps| + 1 => NodeAt(deps, i));
    var w := all + [Lib(id)];
    forall i, k | 0 <= i < k < |w| ensures w[i] != w[k] {
      if k < |all| {
        if NodeAt(deps, i) == NodeAt(deps, k) { NodesDiffer(deps, i, k); }
      } else if i > 0 {
        assert Names(deps)[i - 1] != id;
      }
    }
    forall i | 0 <= i < |w| ensures Reachable(Requirements(root, src), Root, w[i]) {
      if i < |all| {
        assert gray[i] || !gray[i];
        NearIsReachable(root, src, NodeAt(deps, i));
      }
    }
    assert Distinct(w) && |w| == MAX_SET + 1;
  }

  lemma PushStep<C>(root: Decl, src: Source<C>, deps: seq<Dep<C>>, stack: seq<nat>, next: seq<nat>, gray: seq<bool>,
                    path: seq<Node>, order: seq<Node>, dep: Dep<C>)
    requires Walking(root, src, deps, stack, next, gray, path, order) && 0 < |stack| <= MAX_DEPTH &&
      |next| == |path| == |stack|
    requires |deps| + 1 < MAX_SET == |gray| && dep.decl.id !in Names(deps) && FromSource(src, dep) && !dep.direct
    requires next[|stack| - 1] < |Requirements(root, src)(path[|stack| - 1])|
    requires Lib(dep.decl.id) == Requirements(root, src)(path[|stack| - 1])[next[|stack| - 1]]
    ensures Walking(root, src, deps + [dep], stack + [|deps| + 1], next[|stack| - 1 := next[|stack| - 1] + 1] + [0],
                    gray[|deps| + 1 := true], path + [Lib(dep.decl.id)], order)
  {
    hide Search, Requirements, FromSource, Near;
    var n := Lib(dep.decl.id);
    PathOn(root, src, deps, stack, next, gray, path, order, dep.decl.id);
    NotFoundIsNew(deps, gray, path, order, dep.decl.id);
    SearchPush(Requirements(root, src), path, next, order);
    PushColours(deps, gray, path, order, dep);
    assert Names(deps + [dep]) == Names(deps) + [dep.decl.id];
  }

  lemma PushColours<C>(deps: seq<Dep<C>>, gray: seq<bool>, path: seq<Node>, order: seq<Node>, dep: Dep<C>)
    requires Coloured(deps, gray, path, order) && |deps| + 1 < MAX_SET && dep.decl.id !in Names(deps)
    ensures Coloured(deps + [dep], gray[|deps| + 1 := true], path + [Lib(dep.decl.id)], order)
  {
    var n, deps', gray' := Lib(dep.decl.id), deps + [dep], gray[|deps| + 1 := true];
    NotFoundIsNew(deps, gray, path, order, dep.decl.id);
    assert Names(deps') == Names(deps) + [dep.decl.id];
    forall i: nat | i <= |deps'|
      ensures gray'[i] <==> NodeAt(deps', i) in path + [n]
      ensures !gray'[i] <==> NodeAt(deps', i) in order
    {
      if i <= |deps| {
        assert NodeAt(deps', i) == NodeAt(deps, i);
        assert i > 0 ==> Names(deps)[i - 1] != dep.decl.id;
      } else {
        assert (path + [n])[|path|] == n;
      }
    }
    forall id | Lib(id) in path + [n] || Lib(id) in order ensures id in Names(deps') {
      if id == dep.decl.id { assert Names(deps')[|deps|] == id; }
    }
  }

  /** When the stack is empty, the finished nodes are the reachable ones. */
  lemma Walked<C>(root: Decl, src: Source<C>, deps: seq<Dep<C>>, stack: seq<nat>, next: seq<nat>, gray: seq<bool>,
                  path: seq<Node>, order: seq<Node>)
    requires Walking(root, src, deps, stack, next, gray, path, order) && |stack| == 0
    ensures Closed(root, src, deps) && forall d :: d in deps ==> !d.direct
  {
    hide Requirements, FromSource, Near, Reachable, Topological;
    var succ := Requirements(root, src);
    assert path + order == order;
    assert NodeAt(deps, 0) == Root && Root in order;
    forall id ensures id in Names(deps) <==> Reachable(succ, Root, Lib(id)) {
      if id in Names(deps) {
        var i :| 0 <= i < |deps| && Names(deps)[i] == id;
        assert NodeAt(deps, i + 1) == Lib(id);
        NearIsReachable(root, src, Lib(id));
      }
      if Reachable(succ, Root, Lib(id)) { OrderedIsClosed(succ, order, Root, Lib(id)); }
    }
    forall id | id in Names(deps) ensures Near(root, src, Lib(id)) {
      var i :| 0 <= i < |deps| && Names(deps)[i] == id;
      assert NodeAt(deps, i + 1) == Lib(id);
    }
    forall p | IsCycle(succ, p) ensures !Reachable(succ, Root, p[0]) {
      OrderedIsAcyclic(succ, order, p);
      if Reachable(succ, Root, p[0]) { OrderedIsClosed(succ, order, Root, p[0]); }
    }
  }

  /** The requirements of the top of the stack still to follow. */
  ghost function Unread<C>(root: Decl, deps: seq<Dep<C>>, stack: seq<nat>, next: seq<nat>): nat {
    if 0 < |stack| == |next| && stack[|stack| - 1] <= |deps| &&
      next[|stack| - 1] <= |DeclAt(root, deps, stack[|stack| - 1]).needs|
    then |DeclAt(root, deps, stack[|stack| - 1]).needs| - next[|stack| - 1]
    else 0
  }

  /** The packages on the stack from a place on. */
  method Trail<C>(deps: seq<Dep<C>>, stack: seq<nat>, from: nat, ghost path: seq<Node>) returns (trail: seq<Node>)
    requires from <= |stack| && Numbered(deps, stack, path)
    ensures trail == path[from..]
  {
    trail := [];
    for i := from to |stack|
      invariant trail == path[from..i]
    {
      trail := trail + [NodeAt(deps, stack[i])];
    }
  }

  lemma GrayIsOnStack<C>(root: Decl, src: Source<C>, deps: seq<Dep<C>>, stack: seq<nat>, next: seq<nat>,
    gray: seq<bool>, path: seq<Node>, order: seq<Node>, found: nat)
    requires Walking(root, src, deps, stack, next, gray, path, order) && found <= |deps| < |gray| && gray[found]
    ensures found in stack && Numbered(deps, stack, path)
  {
    hide Search, Requirements, FromSource, Near;
    var i :| 0 <= i < |path| && path[i] == NodeAt(deps, found);
    NodesDiffer(deps, stack[i], found);
    assert stack[i] == found;
  }

  /** The checks on a package not loaded yet, and its loading. */
  method Fetch<C(0)>(root: Decl, src: Source<C>, deps: seq<Dep<C>>, stack: seq<nat>, ghost next: seq<nat>,
    ghost gray: seq<bool>, ghost path: seq<Node>, ghost order: seq<Node>, id: string) returns (r: Outcome, dep: Dep<C>)
    requires Walking(root, src, deps, stack, next, gray, path, order) &&
      0 < |stack| == |next| == |path| <= MAX_DEPTH + 1
    requires |deps| < MAX_SET && next[|stack| - 1] < |Requirements(root, src)(path[|stack| - 1])| && id !in Names(deps)
    requires Lib(id) == Requirements(root, src)(path[|stack| - 1])[next[|stack| - 1]]
    ensures r.Loaded? ==> |stack| <= MAX_DEPTH && |deps| + 1 < MAX_SET
    ensures r.Loaded? ==> dep.decl.id == id && FromSource(src, dep) && !dep.direct
    ensures r.Loaded? || (Justified(root, src, r) && !r.NotProvided?)
  {
    hide Walking, Requirements, Reachable, Near;
    r, dep := Loaded, *;
    PathOn(root, src, deps, stack, next, gray, path, order, id);
    if |stack| > MAX_DEPTH {
      WalkFacts(root, src, deps, stack, next, gray, path, order);
      StackNumbered(root, src, deps, stack, next, gray, path, order);
      var trail := Trail(deps, stack, 0, path);
      DeepStep(root, src, deps, stack, next, gray, path, order, id);
      return TooDeep(trail + [Lib(id)]), dep;
    }
    if |deps| >= MAX_SET - 1 {
      ManyStep(root, src, deps, stack, next, gray, path, order, id);
      return TooMany(id), dep;
    }
    if id !in src {
      return NotPresent(id), dep;
    }
    match src[id] {
      case Unloadable => return NotLoadable(id), dep;
      case Library(decl, content) =>
        if decl.id != id {
          return WrongId(id), dep;
        }
        dep := Dep(decl, false, content);
    }
  }

  lemma StackNumbered<C>(root: Decl, src: Source<C>, deps: seq<Dep<C>>, stack: seq<nat>, next: seq<nat>,
    gray: seq<bool>, path: seq<Node>, order: seq<Node>)
    requires Walking(root, src, deps, stack, next, gray, path, order)
    ensures Numbered(deps, stack, path)
  {}

  // ----- after the search

  lemma ReachedAreNamed<C>(root: Decl, src: Source<C>, deps: seq<Dep<C>>, k: nat)
    requires Closed(root, src, deps) && k <= |deps|
    ensures Reachable(Requirements(root, src), Root, NodeAt(deps, k))
    ensures DeclAt(root, deps, k) == DeclOf(root, src, NodeAt(deps, k))
  {
    hide Requirements, Near, IsCycle;
    DeclAtIsDeclOf(root, src, deps, k);
    if k == 0 {
      assert Joins(Requirements(root, src), [Root], Root, Root);
    } else {
      assert Names(deps)[k - 1] in Names(deps);
    }
  }

  /** Whatever a reachable package requires is loaded. */
  lemma RequiredIsReached<C>(root: Decl, src: Source<C>, deps: seq<Dep<C>>, k: nat, i: nat)
    requires Closed(root, src, deps) && k <= |deps| && i < |DeclAt(root, deps, k).needs|
    ensures var t := Target(root, DeclAt(root, deps, k).needs[i].package);
      Reachable(Requirements(root, src), Root, t) && (t.Lib? ==> t.id in Names(deps))
  {
    hide Near, IsCycle;
    var succ := Requirements(root, src);
    ReachedAreNamed(root, src, deps, k);
    var p :| Joins(succ, p, Root, NodeAt(deps, k));
    var t := succ(NodeAt(deps, k))[i];
    PathAppended(succ, p, t);
    assert Joins(succ, p + [t], Root, t);
  }

  lemma RootNeverRequired<C>(root: Decl, src: Source<C>, deps: seq<Dep<C>>, i: nat)
    requires Closed(root, src, deps) && i < |root.needs|
    ensures Target(root, root.needs[i].package).Lib?
  {
    var succ := Requirements(root, src);
    if Target(root, root.needs[i].package).Root? {
      var p := [Root, Root];
      assert succ(Root)[i] == Root;
      assert IsPath(succ, p) && IsCycle(succ, p);
      assert Joins(succ, [Root], Root, Root);
    }
  }

  method IsOffered(d: Decl, resource: string) returns (ok: bool)
    ensures ok <==> Offers(d, resource)
  {
    for i := 0 to |d.offers|
      invariant forall j :: 0 <= j < i ==> d.offers[j].id != resource
    {
      if d.offers[i].id == resource {
        return true;
      }
    }
    ok := false;
  }

  lemma AllChecked<C>(root: Decl, src: Source<C>, deps: seq<Dep<C>>)
    requires Closed(root, src, deps) && forall k: nat :: k <= |deps| ==> ImportsOffered(root, src, NodeAt(deps, k))
    ensures AllImportsOffered(root, src)
  {
    hide Requirements, Near, IsCycle, ImportsOffered, Reachable, FromSource;
    forall n | Reachable(Requirements(root, src), Root, n) ensures ImportsOffered(root, src, n) {
      if n.Lib? {
        var i :| 0 <= i < |deps| && Names(deps)[i] == n.id;
        assert NodeAt(deps, i + 1) == n;
      } else {
        assert NodeAt(deps, 0) == n;
      }
    }
  }

  // ----- the canonical order

  function Swapped<T>(s: seq<T>, j: nat): seq<T>
    requires 0 < j < |s|
  {
    s[j := s[j - 1]][j - 1 := s[j]]
  }

  lemma SwappedSame<T>(s: seq<T>, j: nat)
    requires 0 < j < |s|
    ensures multiset(Swapped(s, j)) == multiset(s)
  {}

  lemma SwappedNames<C>(deps: seq<Dep<C>>, j: nat)
    requires 0 < j < |deps|
    ensures Names(Swapped(deps, j)) == Swapped(Names(deps), j)
  {}

  lemma SwappedDistinct(names: seq<string>, j: nat)
    requires 0 < j < |names| && Distinct(names)
    ensures Distinct(Swapped(names, j))
  {}

  /** The first i + 1 names ascend but for the one at j, which is below those after it. */
  ghost predicate Inserting(names: seq<string>, i: nat, j: nat) {
    && j <= i < |names| && Distinct(names)
    && (forall a, b :: 0 <= a < b <= i && a != j && b != j ==> Less(names[a], names[b]))
    && (forall b :: j < b <= i ==> Less(names[j], names[b]))
  }

  lemma ClosedDistinct<C>(root: Decl, src: Source<C>, deps: seq<Dep<C>>)
    requires Closed(root, src, deps)
    ensures Distinct(Names(deps)) && (|deps| > 0 ==> Ascending(Names(deps)[..1])) && Ascending(Names(deps)[..0])
  {}

  lemma NothingAscends(names: seq<string>)
    ensures |names| == 0 ==> Ascending(names)
  {}

  lemma StartInsert(names: seq<string>, i: nat)
    requires i < |names| && Distinct(names) && Ascending(names[..i])
    ensures Inserting(names, i, i)
  {
    forall a, b | 0 <= a < b < i ensures Less(names[a], names[b]) {
      assert Less(names[..i][a], names[..i][b]);
    }
  }

  lemma InsertStep(names: seq<string>, i: nat, j: nat)
    requires Inserting(names, i, j) && j > 0 && Less(names[j], names[j - 1])
    ensures Inserting(Swapped(names, j), i, j - 1)
  {
    SwappedDistinct(names, j);
  }

  lemma Inserted(names: seq<string>, i: nat, j: nat)
    requires Inserting(names, i, j) && (j > 0 ==> !Less(names[j], names[j - 1]))
    ensures Ascending(names[..i + 1]) && Distinct(names)
  {
    forall a | 0 <= a < j ensures Less(names[a], names[j]) {
      LessTotal(names[j - 1], names[j]);
      if a < j - 1 {
        LessTransitive(names[a], names[j - 1], names[j]);
      }
    }
  }

  /** Reordering and flagging keep the set complete. */
  lemma ClosedWhenSame<C>(root: Decl, src: Source<C>, deps: seq<Dep<C>>, deps': seq<Dep<C>>)
    requires Closed(root, src, deps) && multiset(deps) == multiset(deps') && Distinct(Names(deps'))
    ensures Closed(root, src, deps')
    ensures DirectKnown(root, deps, |root.needs|) ==> DirectKnown(root, deps', |root.needs|)
  {
    hide Requirements, Near, IsCycle, Reachable, FromSource;
    assert |multiset(deps)| == |deps| && |multiset(deps')| == |deps'|;
    forall d ensures d in deps <==> d in deps' {
      assert d in multiset(deps) <==> d in multiset(deps');
    }
    forall id ensures id in Names(deps) <==> id in Names(deps') {
      if id in Names(deps) {
        var i :| 0 <= i < |deps| && Names(deps)[i] == id;
        assert deps[i] in deps';
        var k :| 0 <= k < |deps'| && deps'[k] == deps[i];
        assert Names(deps')[k] == id;
      }
      if id in Names(deps') {
        var i :| 0 <= i < |deps'| && Names(deps')[i] == id;
        assert deps'[i] in deps;
        var k :| 0 <= k < |deps| && deps[k] == deps'[i];
        assert Names(deps)[k] == id;
      }
    }
    if DirectKnown(root, deps, |root.needs|) {
      forall k | 0 <= k < |deps'| ensures deps'[k].direct <==>
        Lib(deps'[k].decl.id) in Targets(root, root.needs)[..|root.needs|] {
        assert deps'[k] in deps;
        var i :| 0 <= i < |deps| && deps[i] == deps'[k];
      }
    }
  }

  lemma FlagStep<C>(root: Decl, src: Source<C>, deps: seq<Dep<C>>, i: nat, at: nat)
    requires Closed(root, src, deps) && i < |root.needs| && DirectKnown(root, deps, i)
    requires at < |deps| && Lib(deps[at].decl.id) == Target(root, root.needs[i].package)
    ensures var deps' := deps[at := deps[at].(direct := true)];
      Closed(root, src, deps') && DirectKnown(root, deps', i + 1) && Names(deps') == Names(deps)
  {
    hide Requirements, Near, IsCycle, Reachable;
    var deps' := deps[at := deps[at].(direct := true)];
    var ts := Targets(root, root.needs);
    assert Names(deps') == Names(deps);
    assert ts[..i + 1] == ts[..i] + [ts[i]];
    forall d | d in deps' ensures FromSource(src, d) {
      var k :| 0 <= k < |deps'| && deps'[k] == d;
      assert deps[k] in deps;
    }
    forall k | 0 <= k < |deps| ensures deps'[k].direct <==> Lib(deps'[k].decl.id) in ts[..i + 1] {
      assert Lib(deps[k].decl.id) in ts[..i] + [ts[i]] <==>
        Lib(deps[k].decl.id) in ts[..i] || Lib(deps[k].decl.id) == ts[i];
      if k != at {
        assert Names(deps)[k] != Names(deps)[at];
      }
    }
  }

  // ----- exactly when a root loads

  /** At most sixteen packages, no cycle, every library there and what it was asked for, every import offered. */
  ghost predicate Fit<C>(root: Decl, src: Source<C>) {
    var succ := Requirements(root, src);
    && (forall w: seq<Node> :: Distinct(w) && (forall i :: 0 <= i < |w| ==> Reachable(succ, Root, w[i])) ==>
      |w| <= MAX_SET)
    && (forall p :: IsCycle(succ, p) ==> !Reachable(succ, Root, p[0]))
    && (forall id :: Reachable(succ, Root, Lib(id)) ==> id in src && src[id].Library? && src[id].decl.id == id)
    && AllImportsOffered(root, src)
  }

  ghost predicate Shallow<C>(root: Decl, src: Source<C>) {
    forall n :: Reachable(Requirements(root, src), Root, n) ==> Near(root, src, n)
  }

  /** Given what Load promises, a root loads exactly when its set is fit and every package's leftmost path is short;
      a longer path beside a short leftmost one does not matter. */
  lemma LoadsExactlyWhen<C>(root: Decl, src: Source<C>, r: Outcome, deps: seq<Dep<C>>)
    requires if r.Loaded? then Complete(root, src, deps) else Justified(root, src, r)
    ensures r.Loaded? <==> Fit(root, src) && Shallow(root, src)
  {
    hide Requirements;
    var succ := Requirements(root, src);
    if r.Loaded? {
      CompleteIsFit(root, src, deps);
      assert Joins(succ, [Root], Root, Root);
      assert FoundAt(root, src, Root, [Root], []);
      forall n | Reachable(succ, Root, n) ensures Near(root, src, n) {
        if n.Lib? {
          assert n == Lib(n.id) && n.id in Names(deps);
        }
      }
    } else if r.TooDeep? {
      var n := r.path[|r.path| - 1];
      var links :| FoundAt(root, src, n, r.path, links);
      if Near(root, src, n) {
        var p, links' :| FoundAt(root, src, n, p, links') && |links'| <= MAX_DEPTH;
        LeftmostUnique(succ, p, links', r.path, links, Root, n);
      }
    }
  }

  lemma CompleteIsFit<C>(root: Decl, src: Source<C>, deps: seq<Dep<C>>)
    requires Complete(root, src, deps)
    ensures Fit(root, src)
  {
    hide Requirements, AllImportsOffered, IsCycle, Reachable, Near;
    var succ := Requirements(root, src);
    var all := {Root} + set id | id in Names(deps) :: Lib(id);
    forall w: seq<Node> | Distinct(w) && (forall i :: 0 <= i < |w| ==> Reachable(succ, Root, w[i]))
      ensures |w| <= MAX_SET {
      forall i | 0 <= i < |w| ensures w[i] in all {
        assert w[i].Root? || w[i] == Lib(w[i].id);
      }
      DistinctFit(w, all);
      AtMostOneEach(Names(deps), all);
    }
    forall id | Reachable(succ, Root, Lib(id)) ensures id in src && src[id].Library? && src[id].decl.id == id {
      var i :| 0 <= i < |deps| && Names(deps)[i] == id;
      assert deps[i] in deps;
    }
  }

  lemma {:induction false} AtMostOneEach(names: seq<string>, all: set<Node>)
    requires all == {Root} + set id | id in names :: Lib(id)
    ensures |all| <= |names| + 1
  {
    if names == [] {
      assert all == {Root};
    } else {
      var init, last := names[..|names| - 1], names[|names| - 1];
      var fewer := {Root} + set id | id in init :: Lib(id);
      assert forall id :: id in names <==> id in init || id == last;
      assert all == fewer + {Lib(last)};
      AtMostOneEach(init, fewer);
    }
  }

  // ----- depth is not the longest path

  function Id(k: nat): (id: string)
    ensures |id| == k
  {
    if k == 0 then "" else Id(k - 1) + "a"
  }

  function ChainNeeds(k: nat): seq<Need> {
    if k == 9 then [] else [Need(Id(k + 1), [])]
  }

  /** Nine libraries, each requiring the next. */
  function Chain(): Source<()> {
    map id | id in {Id(1), Id(2), Id(3), Id(4), Id(5), Id(6), Id(7), Id(8), Id(9)} ::
      Library(Decl(true, id, ChainNeeds(|id|), []), ())
  }

  lemma InChain(k: nat)
    requires 1 <= k <= 9
    ensures Id(k) in Chain()
  {}

  function ChainNode(k: nat): Node { if k == 0 then Root else Lib(Id(k)) }

  function ChainPath(k: nat): (p: seq<Node>)
    ensures |p| == k + 1 && forall i :: 0 <= i <= k ==> p[i] == ChainNode(i)
  {
    seq(k + 1, i requires 0 <= i < k + 1 => ChainNode(i))
  }

  /** The root requires the last and then the first. */
  function Shortcut(): Decl { Decl(false, "", [Need(Id(9), []), Need(Id(1), [])], []) }

  lemma ChainSuccessors(k: nat)
    requires k <= 9
    ensures var succ := Requirements(Shortcut(), Chain());
      succ(ChainNode(k)) == if k == 0 then [ChainNode(9), ChainNode(1)] else if k == 9 then [] else [ChainNode(k + 1)]
  {
    if k > 0 {
      InChain(k);
    }
  }

  /** From a library only later ones are reached. */
  lemma {:induction false} ChainReaches(k: nat, p: seq<Node>)
    requires IsPath(Requirements(Shortcut(), Chain()), p) && 1 <= k <= 9 && p[0] == ChainNode(k)
    ensures exists j: nat :: k <= j <= 9 && p[|p| - 1] == ChainNode(j) && j - k == |p| - 1
    decreases 9 - k
  {
    if |p| > 1 {
      ChainSuccessors(k);
      PathTail(Requirements(Shortcut(), Chain()), p);
      assert p[1] == ChainNode(k + 1);
      ChainReaches(k + 1, p[1..]);
    }
  }

  lemma FromRoot(n: Node)
    requires Reachable(Requirements(Shortcut(), Chain()), Root, n)
    ensures exists j: nat :: j <= 9 && n == ChainNode(j)
  {
    var succ := Requirements(Shortcut(), Chain());
    var p :| Joins(succ, p, Root, n);
    ChainSuccessors(0);
    if |p| == 1 {
      assert n == ChainNode(0);
    } else {
      PathTail(succ, p);
      ChainReaches(if p[1] == ChainNode(9) then 9 else 1, p[1..]);
    }
  }

  /** Nine links lead to the last library one way, yet the set loads: it was found by its one-link path. */
  lemma LongPathLoads()
    ensures Fit(Shortcut(), Chain()) && Shallow(Shortcut(), Chain())
    ensures Joins(Requirements(Shortcut(), Chain()), ChainPath(9), Root, ChainNode(9)) && |ChainPath(9)| - 1 > MAX_DEPTH
  {
    hide Requirements, Chain, Reachable;
    var succ := Requirements(Shortcut(), Chain());
    ChainIsPath(9);
    forall n | Reachable(succ, Root, n) ensures Near(Shortcut(), Chain(), n) {
      FromRoot(n);
      var j: nat :| j <= 9 && n == ChainNode(j);
      ChainNear(j);
    }
    ShortcutIsFit();
  }

  lemma ChainIsPath(k: nat)
    requires k <= 9
    ensures Joins(Requirements(Shortcut(), Chain()), ChainPath(k), Root, ChainNode(k))
  {
    var p := ChainPath(k);
    forall i | 0 <= i < |p| - 1 ensures p[i + 1] in Requirements(Shortcut(), Chain())(p[i]) {
      ChainSuccessors(i);
      assert p[i + 1] == ChainNode(i + 1);
    }
  }

  lemma ChainNear(j: nat)
    requires j <= 9
    ensures Near(Shortcut(), Chain(), ChainNode(j))
  {
    hide Requirements, Chain;
    var succ := Requirements(Shortcut(), Chain());
    var p := if j == 9 then [Root, ChainNode(9)] else ChainPath(j);
    var links := if j == 9 then [0] else seq(j, i => if i == 0 then 1 else 0);
    ChainSuccessors(0);
    if j < 9 {
      ChainIsPath(j);
      LastReachesNone(j);
      forall i | 0 <= i < j ensures TakesLink(succ, p[i], links[i], p[i + 1], ChainNode(j)) {
        ChainSuccessors(i);
      }
    } else {
      assert succ(Root)[0] == ChainNode(9) && IsPath(succ, p);
    }
    forall i, k | 0 <= i < k < |p| ensures p[i] != p[k] {
      assert j < 9 ==> Number(p[i]) == i && Number(p[k]) == k;
    }
    assert FoundAt(Shortcut(), Chain(), ChainNode(j), p, links);
  }

  lemma LastReachesNone(j: nat)
    requires j < 9
    ensures !Reachable(Requirements(Shortcut(), Chain()), ChainNode(9), ChainNode(j))
  {
    hide Requirements, Chain;
    forall p ensures !Joins(Requirements(Shortcut(), Chain()), p, ChainNode(9), ChainNode(j)) {
      if Joins(Requirements(Shortcut(), Chain()), p, ChainNode(9), ChainNode(j)) {
        ChainReaches(9, p);
      }
    }
    assert Number(ChainNode(j)) == j && Number(ChainNode(9)) == 9;
  }

  lemma ShortcutIsFit()
    ensures Fit(Shortcut(), Chain())
  {
    hide *;
    ShortcutIsSmall();
    ShortcutIsAcyclic();
    ShortcutIsPresent();
    FitWhen(Shortcut(), Chain());
  }

  lemma FitWhen<C>(root: Decl, src: Source<C>)
    requires forall w: seq<Node> ::
      Distinct(w) && (forall i :: 0 <= i < |w| ==> Reachable(Requirements(root, src), Root, w[i])) ==>
        |w| <= MAX_SET
    requires forall p :: IsCycle(Requirements(root, src), p) ==> !Reachable(Requirements(root, src), Root, p[0])
    requires forall id :: Reachable(Requirements(root, src), Root, Lib(id)) ==>
      id in src && src[id].Library? && src[id].decl.id == id
    requires AllImportsOffered(root, src)
    ensures Fit(root, src)
  {}

  function Number(n: Node): nat { if n.Root? then 0 else |n.id| }

  lemma ShortcutIsSmall()
    ensures forall w: seq<Node> ::
      Distinct(w) && (forall i :: 0 <= i < |w| ==> Reachable(Requirements(Shortcut(), Chain()), Root, w[i])) ==>
        |w| <= MAX_SET
  {
    hide Requirements, Chain, Reachable;
    forall w: seq<Node> | Distinct(w) && (forall i :: 0 <= i < |w| ==>
      Reachable(Requirements(Shortcut(), Chain()), Root, w[i]))
      ensures |w| <= MAX_SET
    {
      var numbers := seq(|w|, i requires 0 <= i < |w| => Number(w[i]));
      forall i | 0 <= i < |w| ensures numbers[i] in Upto(10) && w[i] == ChainNode(numbers[i]) { FromRoot(w[i]); }
      DistinctFit(numbers, Upto(10));
    }
  }

  lemma ShortcutIsAcyclic()
    ensures forall p :: IsCycle(Requirements(Shortcut(), Chain()), p) ==>
      !Reachable(Requirements(Shortcut(), Chain()), Root, p[0])
  {
    hide Requirements, Chain, Reachable;
    var succ := Requirements(Shortcut(), Chain());
    forall p | IsCycle(succ, p) ensures !Reachable(succ, Root, p[0]) {
      if Reachable(succ, Root, p[0]) {
        FromRoot(p[0]);
        var k: nat :| k <= 9 && p[0] == ChainNode(k);
        NoChainCycle(k, p);
      }
    }
  }

  lemma ShortcutIsPresent()
    ensures forall id :: Reachable(Requirements(Shortcut(), Chain()), Root, Lib(id)) ==>
      id in Chain() && Chain()[id].Library? && Chain()[id].decl.id == id
    ensures AllImportsOffered(Shortcut(), Chain())
  {
    hide Requirements, Chain, Reachable;
    var succ := Requirements(Shortcut(), Chain());
    forall id | Reachable(succ, Root, Lib(id))
      ensures id in Chain() && Chain()[id].Library? && Chain()[id].decl.id == id {
      FromRoot(Lib(id));
      var k: nat :| k <= 9 && Lib(id) == ChainNode(k);
      ChainEntry(k);
    }
    forall n | Reachable(succ, Root, n) ensures ImportsOffered(Shortcut(), Chain(), n) {
      FromRoot(n);
      var k: nat :| k <= 9 && n == ChainNode(k);
      if k > 0 { ChainEntry(k); }
    }
  }

  lemma ChainEntry(k: nat)
    requires 1 <= k <= 9
    ensures Id(k) in Chain() && Chain()[Id(k)] == Library(Decl(true, Id(k), ChainNeeds(k), []), ())
  {
    InChain(k);
  }

  lemma NoChainCycle(k: nat, p: seq<Node>)
    requires k <= 9 && IsPath(Requirements(Shortcut(), Chain()), p) && |p| > 1 && p[0] == ChainNode(k)
    ensures p[|p| - 1] != ChainNode(k)
  {
    hide Requirements, Chain;
    var succ := Requirements(Shortcut(), Chain());
    ChainSuccessors(k);
    PathTail(succ, p);
    var from := if k > 0 then k + 1 else if p[1] == ChainNode(9) then 9 else 1;
    ChainReaches(from, p[1..]);
    var j: nat :| from <= j <= 9 && p[1..][|p[1..]| - 1] == ChainNode(j);
    assert Number(ChainNode(j)) == j && Number(ChainNode(k)) == k;
  }

  class PackageSet<C(0)> {
    var root: Decl
    var deps: seq<Dep<C>>

    constructor ()
      ensures deps == []
    {
      root := Decl(false, "", [], []);
      deps := [];
    }

    /** Loads everything the root requires, or nothing. */
    method Load(root: Decl, src: Source<C>) returns (r: Outcome)
      modifies this
      ensures r.Loaded? || Justified(root, src, r)
      ensures r.Loaded? ==> this.root == root && Complete(root, src, deps)
      ensures !r.Loaded? ==> deps == []
    {
      hide Justified, Closed, Ascending, DirectKnown, AllImportsOffered;
      this.root := root;
      deps := [];
      r := Discover(src);
      if r.Loaded? {
        r := CheckImports(src);
      }
      if !r.Loaded? {
        Free();
        return;
      }
      MarkDirect(src);
      Sort(src);
    }

    method Free()
      modifies this
      ensures deps == []
    {
      root := Decl(false, "", [], []);
      deps := [];
    }

    method Discover(src: Source<C>) returns (r: Outcome)
      requires deps == []
      modifies this`deps
      ensures r.Loaded? || (Justified(root, src, r) && !r.NotProvided?)
      ensures r.Loaded? ==> Closed(root, src, deps) && forall d :: d in deps ==> !d.direct
    {
      hide Walking, Closed, Justified, Requirements, FromSource, Near;
      var gray := seq(MAX_SET, i => i == 0);
      var stack: seq<nat>, next: seq<nat> := [0], [0];
      ghost var path: seq<Node>, order: seq<Node> := [Root], [];
      StartWalk(root, src, gray);
      while |stack| > 0
        invariant Walking(root, src, deps, stack, next, gray, path, order)
        decreases MAX_SET - |deps|, |stack|, Unread(root, deps, stack, next)
      {
        WalkFacts(root, src, deps, stack, next, gray, path, order);
        var top := |stack| - 1;
        var node := stack[top];
        var d := DeclAt(root, deps, node);
        if next[top] >= |d.needs| {
          PopStep(root, src, deps, stack, next, gray, path, order);
          gray := gray[node := false];
          path, order := path[..top], order + [path[top]];
          stack, next := stack[..top], next[..top];
        } else {
          var id := d.needs[next[top]].package;
          var found := NodeOf(root, deps, id);
          if found >= 0 && gray[found] {
            GrayIsOnStack(root, src, deps, stack, next, gray, path, order, found);
            var from := IndexOf(stack, found);
            var trail := Trail(deps, stack, from, path);
            CycleStep(root, src, deps, stack, next, gray, path, order, from, trail);
            return Cycle(trail + [NodeAt(deps, stack[from])]);
          } else if found >= 0 {
            SkipStep(root, src, deps, stack, next, gray, path, order, found);
            next := next[top := next[top] + 1];
          } else {
            var dep: Dep<C>;
            r, dep := Fetch(root, src, deps, stack, next, gray, path, order, id);
            if !r.Loaded? {
              return;
            }
            PushStep(root, src, deps, stack, next, gray, path, order, dep);
            deps := deps + [dep];
            next := next[top := next[top] + 1] + [0];
            gray, stack, path := gray[|deps| := true], stack + [|deps|], path + [Lib(id)];
          }
        }
      }
      Walked(root, src, deps, stack, next, gray, path, order);
      r := Loaded;
    }

    /** Every import of every package must be among what the package it is taken from offers. */
    method CheckImports(src: Source<C>) returns (r: Outcome)
      requires Closed(root, src, deps)
      ensures r.Loaded? ==> AllImportsOffered(root, src)
      ensures r.Loaded? || Justified(root, src, r)
    {
      hide Closed, Requirements, Reachable, Offers;
      for k := 0 to |deps| + 1
        invariant forall m: nat :: m < k ==> ImportsOffered(root, src, NodeAt(deps, m))
      {
        ReachedAreNamed(root, src, deps, k);
        var d := DeclAt(root, deps, k);
        for i := 0 to |d.needs|
          invariant forall m, j :: 0 <= m < i && 0 <= j < |d.needs[m].imports| ==>
            Offers(DeclOf(root, src, Target(root, d.needs[m].package)), d.needs[m].imports[j])
        {
          var q := d.needs[i];
          var p := NodeOf(root, deps, q.package);
          RequiredIsReached(root, src, deps, k, i);
          ReachedAreNamed(root, src, deps, p);
          for j := 0 to |q.imports|
            invariant forall m :: 0 <= m < j ==> Offers(DeclOf(root, src, Target(root, q.package)), q.imports[m])
          {
            var ok := IsOffered(DeclAt(root, deps, p), q.imports[j]);
            if !ok {
              return NotProvided(NodeAt(deps, k), q.package, q.imports[j]);
            }
          }
        }
      }
      AllChecked(root, src, deps);
      r := Loaded;
    }

    /** Flags the packages the root itself requires. */
    method MarkDirect(src: Source<C>)
      requires Closed(root, src, deps) && forall d :: d in deps ==> !d.direct
      modifies this`deps
      ensures Closed(root, src, deps) && DirectKnown(root, deps, |root.needs|)
    {
      hide Closed;
      for i := 0 to |root.needs|
        invariant Closed(root, src, deps) && DirectKnown(root, deps, i)
      {
        var at := NodeOf(root, deps, root.needs[i].package);
        RequiredIsReached(root, src, deps, 0, i);
        RootNeverRequired(root, src, deps, i);
        FlagStep(root, src, deps, i, at - 1);
        deps := deps[at - 1 := deps[at - 1].(direct := true)];
      }
    }

    /** Insertion sort by ID. */
    method Sort(src: Source<C>)
      requires Closed(root, src, deps) && DirectKnown(root, deps, |root.needs|)
      modifies this`deps
      ensures Closed(root, src, deps) && DirectKnown(root, deps, |root.needs|) && Ascending(Names(deps))
      ensures multiset(deps) == multiset(old(deps))
    {
      hide *;
      ghost var was := deps;
      ClosedDistinct(root, src, deps);
      var i := 1;
      while i < |deps|
        invariant multiset(deps) == multiset(was) && |deps| == |was| && Distinct(Names(deps))
        invariant 1 <= i && (i <= |deps| ==> Ascending(Names(deps)[..i])) && (i > |deps| ==> |deps| == 0)
      {
        var j := i;
        StartInsert(Names(deps), i);
        while j > 0 && Less(deps[j].decl.id, deps[j - 1].decl.id)
          invariant multiset(deps) == multiset(was) && |deps| == |was|
          invariant j <= i < |deps| && Inserting(Names(deps), i, j)
        {
          InsertStep(Names(deps), i, j);
          SwappedSame(deps, j);
          SwappedNames(deps, j);
          deps := Swapped(deps, j);
          j := j - 1;
        }
        Inserted(Names(deps), i, j);
        i := i + 1;
      }
      assert Names(deps)[..|deps|] == Names(deps);
      NothingAscends(Names(deps));
      ClosedWhenSame(root, src, was, deps);
    }
  }
}
