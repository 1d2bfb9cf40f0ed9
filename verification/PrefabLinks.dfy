/** A prefab's links between siblings: each resolved and checked, then a depth-first search with an explicit
    stack that refuses cycles and measures the longest chain from every child. */
module PrefabLinks {
  import opened Finite
  import opened Graphs

  const MAX_CHILDREN := 16
  const MAX_CHAIN := 16

  datatype Kind = Interactable | Relay | Mover | Trigger | Teleport | Prop
  datatype Event = Used | Fired | Entered
  datatype Input = Activate | Deactivate | Open | Close | Toggle | Transport | Use

  predicate Emits(kind: Kind, event: Event) {
    || (kind.Interactable? && event.Used?)
    || (kind.Relay? && event.Fired?)
    || (kind.Trigger? && event.Entered?)
  }

  predicate Accepts(kind: Kind, input: Input) {
    || (kind.Relay? && (input.Activate? || input.Deactivate?))
    || (kind.Interactable? && input.Use?)
    || (kind.Mover? && (input.Open? || input.Close? || input.Toggle?))
    || (kind.Teleport? && input.Transport?)
  }

  datatype Link = Link(event: Event, input: Input, target: string)
  datatype Child = Child(id: string, kind: Kind, links: seq<Link>)

  datatype Outcome =
    | Linked
    | Missing | ToItself | NotEmitted | NotAccepted
    | Cycle(path: seq<nat>)
    | LongChain(child: nat, length: nat)

  /** The last child so named, or the child count. */
  function Find(children: seq<Child>, id: string): (at: nat)
    ensures at <= |children|
    ensures at < |children| ==> children[at].id == id && forall j :: at < j < |children| ==> children[j].id != id
    ensures at == |children| ==> forall j :: 0 <= j < |children| ==> children[j].id != id
  {
    if children == [] then 0
    else if children[|children| - 1].id == id then |children| - 1
    else
      var at := Find(children[..|children| - 1], id);
      if at == |children| - 1 then |children| else at
  }

  /** Child j is the one a link to this name goes to: the last child so named. */
  ghost predicate Named(children: seq<Child>, id: string, j: nat) {
    j < |children| && children[j].id == id && forall m :: j < m < |children| ==> children[m].id != id
  }

  /** Child i's link goes to another child, from an event child i emits to an input that other child accepts. */
  ghost predicate Good(children: seq<Child>, i: nat, link: Link)
    requires i < |children|
  {
    exists j: nat ::
      Named(children, link.target, j) && j != i && Emits(children[i].kind, link.event) &&
      Accepts(children[j].kind, link.input)
  }

  /** What each refusal says of child i's link. */
  ghost predicate Wrong(children: seq<Child>, i: nat, link: Link, r: Outcome)
    requires i < |children|
  {
    match r
    case Missing => forall j :: 0 <= j < |children| ==> children[j].id != link.target
    case ToItself => Named(children, link.target, i)
    case NotEmitted =>
      !Emits(children[i].kind, link.event) && exists j: nat :: Named(children, link.target, j) && j != i
    case NotAccepted =>
      exists j: nat ::
        Named(children, link.target, j) && j != i && Emits(children[i].kind, link.event) &&
        !Accepts(children[j].kind, link.input)
    case _ => false
  }

  /** The first n children's links, and the first k of child n's, are good. */
  ghost predicate GoodBefore(children: seq<Child>, n: nat, k: nat) {
    && (forall i, m :: 0 <= i < n && i < |children| && 0 <= m < |children[i].links| ==>
          Good(children, i, children[i].links[m]))
    && (n < |children| ==>
          forall m :: 0 <= m < k && m < |children[n].links| ==> Good(children, n, children[n].links[m]))
  }

  ghost predicate Legal(children: seq<Child>) {
    forall i, k :: 0 <= i < |children| && 0 <= k < |children[i].links| ==> Good(children, i, children[i].links[k])
  }

  /** The first link in order that is not good is wrong in the way r says. */
  ghost predicate FirstWrong(children: seq<Child>, r: Outcome) {
    exists i: nat, k: nat ::
      i < |children| && k < |children[i].links| && GoodBefore(children, i, k) &&
      Wrong(children, i, children[i].links[k], r)
  }

  /** A link is good, or wrong in one way. */
  lemma OneVerdict(children: seq<Child>, i: nat, link: Link, r: Outcome, q: Outcome)
    requires i < |children| && Wrong(children, i, link, r)
    ensures !Good(children, i, link)
    ensures Wrong(children, i, link, q) ==> q == r
  {
    forall j: nat, m: nat | Named(children, link.target, j) && Named(children, link.target, m) ensures j == m {
      OneNamed(children, link.target, j, m);
    }
  }

  lemma OneNamed(children: seq<Child>, id: string, j: nat, m: nat)
    requires Named(children, id, j) && Named(children, id, m)
    ensures j == m
  {}

  lemma FirstWrongIllegal(children: seq<Child>, r: Outcome)
    requires FirstWrong(children, r)
    ensures !Legal(children)
  {
    var i: nat, k: nat :|
      i < |children| && k < |children[i].links| && GoodBefore(children, i, k) &&
      Wrong(children, i, children[i].links[k], r);
    OneVerdict(children, i, children[i].links[k], r, r);
  }

  /** Every event has one kind that emits it, and every input one kind that accepts it. */
  lemma OneEmitter(kind: Kind, event: Event)
    ensures Emits(kind, event) <==> kind == match event
      case Used => Interactable
      case Fired => Relay
      case Entered => Trigger
  {}

  lemma OneAcceptor(kind: Kind, input: Input)
    ensures Accepts(kind, input) <==> kind == match input
      case Activate => Relay
      case Deactivate => Relay
      case Use => Interactable
      case Transport => Teleport
      case _ => Mover
  {}

  /** The sibling graph: for each child, the children its links name. */
  ghost predicate Resolves(children: seq<Child>, targets: seq<seq<nat>>) {
    && |targets| == |children|
    && forall i :: 0 <= i < |children| ==> ResolvesLinks(children, children[i].links, targets[i])
  }

  ghost predicate ResolvesLinks(children: seq<Child>, links: seq<Link>, targets: seq<nat>) {
    |targets| == |links| && forall k :: 0 <= k < |links| ==> Named(children, links[k].target, targets[k])
  }

  function Siblings(targets: seq<seq<nat>>): Succ<nat> {
    (v: nat) => if v < |targets| then targets[v] else []
  }

  /** No chain of links is longer than the limit. */
  ghost predicate Bounded(succ: Succ<nat>, maxChain: nat) {
    forall p :: IsPath(succ, p) ==> |p| <= maxChain + 1
  }

  /** The last child so named decides the link. */
  lemma Judged(children: seq<Child>, i: nat, link: Link, at: nat, r: Outcome)
    requires i < |children| && at == Find(children, link.target)
    requires at == |children| ==> r == Missing
    requires at == i ==> r == ToItself
    requires at < |children| && at != i ==>
      r == if !Emits(children[i].kind, link.event) then NotEmitted
           else if !Accepts(children[at].kind, link.input) then NotAccepted else Linked
    ensures r.Linked? ==> Good(children, i, link) && Named(children, link.target, at)
    ensures !r.Linked? ==> Wrong(children, i, link, r)
  {
    hide Emits, Accepts;
    assert at < |children| ==> Named(children, link.target, at);
  }

  class Prefab {
    var children: seq<Child>
    var targets: seq<seq<nat>>

    constructor (children: seq<Child>)
      ensures this.children == children && targets == []
    {
      this.children := children;
      targets := [];
    }

    /** Links the children, or says why not: with the limit the world has, exactly the legal acyclic graphs
        without a longer chain are accepted. */
    method LinkChildren(maxChain: nat) returns (r: Outcome, ghost depth: seq<nat>)
      modifies this`targets
      ensures r.Linked? ==> Legal(children) && Resolves(children, targets)
      ensures r.Linked? ==> Acyclic(Siblings(targets)) && Bounded(Siblings(targets), maxChain)
      ensures r.Linked? ==> |depth| == |children| && forall v: nat :: v < |children| ==>
        Longest(Siblings(targets), v, depth[v])
      ensures r.Missing? || r.ToItself? || r.NotEmitted? || r.NotAccepted? ==>
        FirstWrong(children, r) && !Legal(children)
      ensures r.Cycle? ==> Legal(children) && Resolves(children, targets) && IsCycle(Siblings(targets), r.path)
      ensures r.LongChain? ==> Legal(children) && Resolves(children, targets)
                               && r.length > maxChain && Longest(Siblings(targets), r.child, r.length)
      ensures |children| <= maxChain + 1 ==> !r.LongChain?
    {
      hide Legal, FirstWrong, Acyclic, Bounded, Longest, IsCycle;
      r := Resolve();
      depth := [];
      if r.Linked? { ResolvesWithin(children, targets); }
      if !r.Linked? {
        return;
      }
      r, depth := CheckChains(targets, maxChain);
    }

    method Resolve() returns (r: Outcome)
      modifies this`targets
      ensures !r.Cycle? && !r.LongChain?
      ensures r.Linked? <==> Legal(children)
      ensures r.Linked? ==> Resolves(children, targets)
      ensures !r.Linked? ==> FirstWrong(children, r)
    {
      hide Good, Wrong, Named, Emits, Accepts;
      var all: seq<seq<nat>> := [];
      for i := 0 to |children|
        invariant |all| == i
        invariant forall j :: 0 <= j < i ==> ResolvesLinks(children, children[j].links, all[j])
        invariant GoodBefore(children, i, 0)
      {
        var c := children[i];
        var mine: seq<nat> := [];
        for k := 0 to |c.links|
          invariant ResolvesLinks(children, c.links[..k], mine)
          invariant GoodBefore(children, i, k)
        {
          var link := c.links[k];
          var at := Find(children, link.target);
          r := Linked;
          if at == |children| {
            r := Missing;
          } else if at == i {
            r := ToItself;
          } else if !Emits(c.kind, link.event) {
            r := NotEmitted;
          } else if !Accepts(children[at].kind, link.input) {
            r := NotAccepted;
          }
          Judged(children, i, link, at, r);
          if !r.Linked? {
            targets := all + [mine];
            FirstWrongIllegal(children, r);
            return;
          }
          assert c.links[..k + 1] == c.links[..k] + [link];
          mine := mine + [at];
        }
        assert c.links[..|c.links|] == c.links;
        all := all + [mine];
      }
      targets := all;
      r := Linked;
    }
  }

  // ----- the search

  /** 0 unseen, 1 on the stack, 2 finished. */
  ghost predicate Marks(state: seq<int>, stack: seq<nat>, order: seq<nat>) {
    && (forall v: nat :: v in stack || v in order ==> v < |state|)
    && (forall v: nat :: v < |state| ==>
         0 <= state[v] <= 2 && (state[v] == 1 <==> v in stack) && (state[v] == 2 <==> v in order))
  }

  ghost predicate Measured(succ: Succ<nat>, depth: seq<nat>, order: seq<nat>, maxChain: nat) {
    forall v: nat :: v in order ==> v < |depth| && depth[v] <= maxChain && Longest(succ, v, depth[v])
  }

  ghost predicate AllBelow(links: seq<nat>, n: nat) {
    forall k :: 0 <= k < |links| ==> links[k] < n
  }

  ghost predicate WithinNodes(targets: seq<seq<nat>>) {
    forall v :: 0 <= v < |targets| ==> AllBelow(targets[v], |targets|)
  }

  lemma ResolvesWithin(children: seq<Child>, targets: seq<seq<nat>>)
    requires Resolves(children, targets)
    ensures WithinNodes(targets)
  {
    forall v | 0 <= v < |targets| ensures AllBelow(targets[v], |targets|) {
      assert ResolvesLinks(children, children[v].links, targets[v]);
    }
  }

  method CheckChains(targets: seq<seq<nat>>, maxChain: nat) returns (r: Outcome, depth: seq<nat>)
    requires WithinNodes(targets)
    ensures r.Linked? || r.Cycle? || r.LongChain?
    ensures r.Linked? ==> Acyclic(Siblings(targets)) && Bounded(Siblings(targets), maxChain)
    ensures r.Linked? ==> |depth| == |targets| && forall v: nat :: v < |targets| ==>
      Longest(Siblings(targets), v, depth[v])
    ensures r.Cycle? ==> IsCycle(Siblings(targets), r.path)
    ensures r.LongChain? ==> r.length > maxChain && Longest(Siblings(targets), r.child, r.length)
    ensures |targets| <= maxChain + 1 ==> !r.LongChain?
  {
    hide Search, Longest, Acyclic, Bounded, IsCycle;
    var n := |targets|;
    var state := seq(n, _ => 0);
    depth := seq(n, _ => 0);
    ghost var order: seq<nat> := [];
    ghost var succ := Siblings(targets);
    r := Linked;
    SearchNothing(succ);
    for root := 0 to n
      invariant |state| == |depth| == n && Search(succ, [], [], order)
      invariant Marks(state, [], order) && Measured(succ, depth, order, maxChain)
      invariant forall v: nat :: v < root ==> v in order
    {
      if state[root] == 0 {
        r, state, depth, order := Explore(targets, maxChain, root, state, depth, order);
        if !r.Linked? {
          return;
        }
      }
    }
    AllMeasured(targets, depth, order, maxChain);
    r := Linked;
  }

  lemma AllMeasured(targets: seq<seq<nat>>, depth: seq<nat>, order: seq<nat>, maxChain: nat)
    requires Search(Siblings(targets), [], [], order) && Measured(Siblings(targets), depth, order, maxChain)
    requires forall v: nat :: v < |targets| ==> v in order
    ensures Acyclic(Siblings(targets)) && Bounded(Siblings(targets), maxChain)
  {
    hide Longest;
    var succ := Siblings(targets);
    assert [] + order == order;
    forall p: seq<nat> ensures !IsCycle(succ, p) {
      if IsCycle(succ, p) {
        StartsAtNode(targets, p);
        OrderedIsAcyclic(succ, order, p);
      }
    }
    forall p: seq<nat> | IsPath(succ, p) ensures |p| <= maxChain + 1 {
      if |p| > 1 {
        StartsAtNode(targets, p);
        assert p[0] in order;
        LongestBounds(succ, p[0], depth[p[0]], p);
      }
    }
  }

  lemma StartsAtNode(targets: seq<seq<nat>>, p: seq<nat>)
    requires IsPath(Siblings(targets), p) && |p| > 1
    ensures p[0] < |targets|
  {
    assert p[0 + 1] in Siblings(targets)(p[0]);
  }

  lemma LongestBounds(succ: Succ<nat>, v: nat, d: nat, p: seq<nat>)
    requires Longest(succ, v, d) && IsPath(succ, p) && p[0] == v
    ensures |p| <= d + 1
  {}

  /** Explores everything below an unseen root; the stack never outgrows the children. */
  method Explore(targets: seq<seq<nat>>, maxChain: nat, root: nat, state0: seq<int>, depth0: seq<nat>,
    ghost order0: seq<nat>)
    returns (r: Outcome, state: seq<int>, depth: seq<nat>, ghost order: seq<nat>)
    requires WithinNodes(targets) && root < |targets| && |state0| == |depth0| == |targets| && state0[root] == 0
    requires Search(Siblings(targets), [], [], order0) && Marks(state0, [], order0)
    requires Measured(Siblings(targets), depth0, order0, maxChain)
    ensures r.Linked? || r.Cycle? || r.LongChain?
    ensures r.Linked? ==>
      Search(Siblings(targets), [], [], order) && Marks(state, [], order) &&
      |state| == |depth| == |targets|
    ensures r.Linked? ==> Measured(Siblings(targets), depth, order, maxChain) && root in order && order0 <= order
    ensures r.Cycle? ==> IsCycle(Siblings(targets), r.path)
    ensures r.LongChain? ==> r.length > maxChain && Longest(Siblings(targets), r.child, r.length)
    ensures |targets| <= maxChain + 1 ==> !r.LongChain?
  {
    hide Search, Marks, Measured, Longest, IsCycle, Exploring, AllBelow, WithinNodes, Left;
    state, depth, order := state0[root := 1], depth0, order0;
    var stack: seq<nat>, next: seq<nat> := [root], [0];
    StartStep(targets, maxChain, root, state0, depth, order);
    while |stack| > 0
      invariant |next| == |stack| && |state| == |depth| == |targets|
      invariant Exploring(targets, maxChain, state, depth, stack, next, order)
      invariant |stack| + |order| <= |targets| && order0 <= order
      invariant root in stack || root in order
      decreases |targets| - |order|, |targets| - |stack|, Left(targets, stack, next)
    {
      ExploringFacts(targets, maxChain, state, depth, stack, next, order);
      var top := |stack| - 1;
      var v := stack[top];
      if next[top] < |targets[v]| {
        var w := targets[v][next[top]];
        if state[w] == 1 {
          var from := IndexOf(stack, w);
          CycleStep(targets, maxChain, state, depth, stack, next, order, from);
          r := Cycle(stack[from..] + [w]);
          return;
        }
        if state[w] == 0 {
          PushStep(targets, maxChain, state, depth, stack, next, order);
          state := state[w := 1];
          stack, next := stack + [w], next[top := next[top] + 1] + [0];
        } else {
          SkipStep(targets, maxChain, state, depth, stack, next, order);
          next := next[top := next[top] + 1];
        }
      } else {
        var best := Deepest(targets[v], depth);
        BestIsLongest(targets, maxChain, state, depth, stack, next, order, best);
        if best > maxChain {
          r := LongChain(v, best);
          return;
        }
        PopStep(targets, maxChain, state, depth, stack, next, order, best);
        depth := depth[v := best];
        state := state[v := 2];
        stack, next, order := stack[..top], next[..top], order + [v];
      }
    }
    assert stack == [] && next == [];
    Explored(targets, maxChain, state, depth, order);
    r := Linked;
  }

  /** What the search keeps: its stack and marks agree, and every finished child is measured. */
  ghost predicate Exploring(targets: seq<seq<nat>>, maxChain: nat, state: seq<int>, depth: seq<nat>,
                            stack: seq<nat>, next: seq<nat>, order: seq<nat>) {
    && WithinNodes(targets) && |state| == |depth| == |targets|
    && Search(Siblings(targets), stack, next, order) && Marks(state, stack, order)
    && Measured(Siblings(targets), depth, order, maxChain)
  }

  /** The links of the top of the stack still to follow. */
  ghost function Left(targets: seq<seq<nat>>, stack: seq<nat>, next: seq<nat>): nat {
    if 0 < |stack| == |next| && stack[|stack| - 1] < |targets| && next[|stack| - 1] <= |targets[stack[|stack| - 1]]|
    then |targets[stack[|stack| - 1]]| - next[|stack| - 1]
    else 0
  }

  lemma StartStep(targets: seq<seq<nat>>, maxChain: nat, root: nat, state: seq<int>, depth: seq<nat>, order: seq<nat>)
    requires WithinNodes(targets) && root < |targets| && |state| == |depth| == |targets| && state[root] == 0
    requires Search(Siblings(targets), [], [], order) && Marks(state, [], order) &&
      Measured(Siblings(targets), depth, order, maxChain)
    ensures Exploring(targets, maxChain, state[root := 1], depth, [root], [0], order) && 1 + |order| <= |targets|
  {
    hide Search, Measured;
    SearchStart(Siblings(targets), order, root);
    StackFits(Siblings(targets), [root], [0], order, |targets|);
  }

  lemma ExploringFacts(targets: seq<seq<nat>>, maxChain: nat, state: seq<int>, depth: seq<nat>,
                       stack: seq<nat>, next: seq<nat>, order: seq<nat>)
    requires Exploring(targets, maxChain, state, depth, stack, next, order) && |stack| > 0
    ensures |next| == |stack| && stack[|stack| - 1] < |targets| && next[|stack| - 1] <= |targets[stack[|stack| - 1]]|
    ensures AllBelow(targets[stack[|stack| - 1]], |targets|)
    ensures next[|stack| - 1] < |targets[stack[|stack| - 1]]| ==>
      targets[stack[|stack| - 1]][next[|stack| - 1]] < |targets|
    ensures forall w: nat :: w < |state| ==> (state[w] == 1 ==> w in stack)
  {
    hide Measured;
    assert stack[|stack| - 1] in stack;
  }

  lemma CycleStep(targets: seq<seq<nat>>, maxChain: nat, state: seq<int>, depth: seq<nat>,
                  stack: seq<nat>, next: seq<nat>, order: seq<nat>, from: nat)
    requires Exploring(targets, maxChain, state, depth, stack, next, order) && |stack| > 0 && |next| == |stack|
    requires from < |stack| && stack[|stack| - 1] < |targets| && next[|stack| - 1] < |targets[stack[|stack| - 1]]|
    requires stack[from] == targets[stack[|stack| - 1]][next[|stack| - 1]]
    ensures IsCycle(Siblings(targets), stack[from..] + [stack[from]])
  {
    hide Search, Measured, Marks, IsCycle;
    SearchCycle(Siblings(targets), stack, next, order, from);
  }

  lemma PushStep(targets: seq<seq<nat>>, maxChain: nat, state: seq<int>, depth: seq<nat>,
                 stack: seq<nat>, next: seq<nat>, order: seq<nat>)
    requires Exploring(targets, maxChain, state, depth, stack, next, order) && |stack| > 0 && |next| == |stack|
    requires stack[|stack| - 1] < |targets| && next[|stack| - 1] < |targets[stack[|stack| - 1]]|
    requires var w := targets[stack[|stack| - 1]][next[|stack| - 1]]; w < |state| && state[w] == 0
    ensures var w := targets[stack[|stack| - 1]][next[|stack| - 1]];
      Exploring(targets, maxChain, state[w := 1], depth, stack + [w], next[|stack| - 1 := next[|stack| - 1] + 1] + [0],
        order)
      && |stack + [w]| + |order| <= |targets|
  {
    hide Search, Measured;
    var t := |stack| - 1;
    var w := targets[stack[t]][next[t]];
    assert Siblings(targets)(stack[t]) == targets[stack[t]];
    SearchPush(Siblings(targets), stack, next, order);
    MarkPushed(state, stack, order, w);
    StackFits(Siblings(targets), stack + [w], next[t := next[t] + 1] + [0], order, |targets|);
  }

  lemma MarkPushed(state: seq<int>, stack: seq<nat>, order: seq<nat>, w: nat)
    requires Marks(state, stack, order) && w < |state| && state[w] == 0
    ensures Marks(state[w := 1], stack + [w], order)
  {
    forall v: nat ensures v in stack + [w] <==> v in stack || v == w {
      if v == w { assert (stack + [w])[|stack|] == w; }
    }
  }

  lemma SkipStep(targets: seq<seq<nat>>, maxChain: nat, state: seq<int>, depth: seq<nat>,
                 stack: seq<nat>, next: seq<nat>, order: seq<nat>)
    requires Exploring(targets, maxChain, state, depth, stack, next, order) && |stack| > 0 && |next| == |stack|
    requires stack[|stack| - 1] < |targets| && next[|stack| - 1] < |targets[stack[|stack| - 1]]|
    requires var w := targets[stack[|stack| - 1]][next[|stack| - 1]]; w < |state| && state[w] != 0 && state[w] != 1
    ensures Exploring(targets, maxChain, state, depth, stack, next[|stack| - 1 := next[|stack| - 1] + 1], order)
    ensures Left(targets, stack, next[|stack| - 1 := next[|stack| - 1] + 1]) < Left(targets, stack, next)
  {
    hide Search, Measured;
    assert Siblings(targets)(stack[|stack| - 1]) == targets[stack[|stack| - 1]];
    SearchSkip(Siblings(targets), stack, next, order);
  }

  lemma PopStep(targets: seq<seq<nat>>, maxChain: nat, state: seq<int>, depth: seq<nat>,
                stack: seq<nat>, next: seq<nat>, order: seq<nat>, best: nat)
    requires Exploring(targets, maxChain, state, depth, stack, next, order) && |stack| > 0 && |next| == |stack|
    requires stack[|stack| - 1] < |targets| && next[|stack| - 1] == |targets[stack[|stack| - 1]]|
    requires best <= maxChain && Longest(Siblings(targets), stack[|stack| - 1], best)
    ensures var v := stack[|stack| - 1];
      Exploring(targets, maxChain, state[v := 2], depth[v := best], stack[..|stack| - 1], next[..|stack| - 1],
        order + [v])
  {
    hide Search, Longest;
    var v := stack[|stack| - 1];
    assert Siblings(targets)(v) == targets[v];
    SearchPop(Siblings(targets), stack, next, order);
    TopIsNew(Siblings(targets), stack, next, order);
    assert stack[..|stack| - 1] + [v] == stack;
    MarkPopped(state, stack[..|stack| - 1], order, v);
    MeasurePopped(Siblings(targets), depth, order, maxChain, v, best);
  }

  lemma MarkPopped(state: seq<int>, stack: seq<nat>, order: seq<nat>, v: nat)
    requires Marks(state, stack + [v], order) && v !in stack && v < |state|
    ensures Marks(state[v := 2], stack, order + [v])
  {
    forall w: nat ensures (w in stack + [v] <==> w in stack || w == v) && (w in order + [v] <==> w in order || w == v) {
      if w == v {
        assert (stack + [v])[|stack|] == v && (order + [v])[|order|] == v;
      }
    }
  }

  lemma MeasurePopped(succ: Succ<nat>, depth: seq<nat>, order: seq<nat>, maxChain: nat, v: nat, best: nat)
    requires Measured(succ, depth, order, maxChain) && v < |depth| && best <= maxChain && Longest(succ, v, best) &&
      v !in order
    ensures Measured(succ, depth[v := best], order + [v], maxChain)
  {
    hide Longest;
  }

  lemma Explored(targets: seq<seq<nat>>, maxChain: nat, state: seq<int>, depth: seq<nat>, order: seq<nat>)
    requires Exploring(targets, maxChain, state, depth, [], [], order)
    ensures Search(Siblings(targets), [], [], order) && Marks(state, [], order)
    ensures Measured(Siblings(targets), depth, order, maxChain)
  {}

  /** All successors are finished and measured, so the measure of the node follows; it cannot exceed the finished
      nodes. */
  lemma BestIsLongest(targets: seq<seq<nat>>, maxChain: nat, state: seq<int>, depth: seq<nat>,
                      stack: seq<nat>, next: seq<nat>, order: seq<nat>, best: nat)
    requires Exploring(targets, maxChain, state, depth, stack, next, order) && |stack| > 0 && |next| == |stack|
    requires stack[|stack| - 1] < |targets| && next[|stack| - 1] == |targets[stack[|stack| - 1]]|
    requires var links := targets[stack[|stack| - 1]];
      && (forall k :: 0 <= k < |links| ==> links[k] < |depth| && depth[links[k]] + 1 <= best)
      && (best == 0 || exists k :: 0 <= k < |links| && depth[links[k]] + 1 == best)
    ensures Longest(Siblings(targets), stack[|stack| - 1], best) && best + 1 <= |targets|
  {
    hide Longest, Search;
    var v := stack[|stack| - 1];
    var succ, links := Siblings(targets), targets[v];
    var d := (w: nat) => if w < |depth| then depth[w] else 0;
    assert succ(v) == links;
    SuccessorsFinished(succ, stack, next, order);
    forall w: nat | w in succ(v) ensures Longest(succ, w, d(w)) && d(w) + 1 <= best {
      var k :| 0 <= k < |links| && links[k] == w;
    }
    if best > 0 {
      var k :| 0 <= k < |links| && depth[links[k]] + 1 == best;
      assert links[k] in succ(v) && d(links[k]) + 1 == best;
    }
    LongestFromSuccessors(succ, v, best, d);
    StackFits(succ, stack, next, order, |targets|);
    ChainFits(succ, v, best, stack, next, order, |targets|);
  }

  method Deepest(links: seq<nat>, depth: seq<nat>) returns (best: nat)
    requires AllBelow(links, |depth|)
    ensures forall k :: 0 <= k < |links| ==> links[k] < |depth| && depth[links[k]] + 1 <= best
    ensures best == 0 || exists k :: 0 <= k < |links| && depth[links[k]] + 1 == best
  {
    best := 0;
    for k := 0 to |links|
      invariant forall m :: 0 <= m < k ==> depth[links[m]] + 1 <= best
      invariant best == 0 || exists m :: 0 <= m < k && depth[links[m]] + 1 == best
    {
      var d := depth[links[k]] + 1;
      if d > best { best := d; }
    }
  }

  lemma SuccessorsFinished(succ: Succ<nat>, stack: seq<nat>, next: seq<nat>, order: seq<nat>)
    requires Search(succ, stack, next, order) && |stack| > 0 && next[|stack| - 1] == |succ(stack[|stack| - 1])|
    ensures forall w: nat :: w in succ(stack[|stack| - 1]) ==> w in order
  {
    var v := stack[|stack| - 1];
    forall w: nat | w in succ(v) ensures w in order {
      var k :| 0 <= k < |succ(v)| && succ(v)[k] == w;
    }
  }

  /** Stack and finished nodes are distinct children. */
  lemma StackFits(succ: Succ<nat>, stack: seq<nat>, next: seq<nat>, order: seq<nat>, n: nat)
    requires Search(succ, stack, next, order) && forall v: nat :: v in stack || v in order ==> v < n
    ensures |stack| + |order| <= n
  {
    assert forall i :: 0 <= i < |stack + order| ==> (stack + order)[i] in stack || (stack + order)[i] in order;
    DistinctFit(stack + order, Upto(n));
  }

  /** A chain below a node being finished has as many links as there are finished nodes, at most. */
  lemma ChainFits(succ: Succ<nat>, v: nat, best: nat, stack: seq<nat>, next: seq<nat>, order: seq<nat>, n: nat)
    requires Search(succ, stack, next, order) && |stack| > 0 && v == stack[|stack| - 1] &&
      next[|stack| - 1] == |succ(v)|
    requires Longest(succ, v, best) && |stack| + |order| <= n
    ensures best + 1 <= n
  {
    SearchPop(succ, stack, next, order);
    var order' := order + [v];
    var p :| IsPath(succ, p) && p[0] == v && |p| == best + 1;
    var j := PathDescends(succ, order', p, |order|);
  }

  // ----- what acceptance means

  /** Acceptance is exactly legality, no cycle and no chain over the limit, whatever the graph. */
  lemma ExactlyWhen(children: seq<Child>, targets: seq<seq<nat>>, maxChain: nat, r: Outcome)
    requires Resolves(children, targets)
    requires r.Linked? ==> Acyclic(Siblings(targets)) && Bounded(Siblings(targets), maxChain)
    requires r.Cycle? ==> IsCycle(Siblings(targets), r.path)
    requires r.LongChain? ==> r.length > maxChain && Longest(Siblings(targets), r.child, r.length)
    requires r.Linked? || r.Cycle? || r.LongChain?
    ensures r.Linked? <==> Acyclic(Siblings(targets)) && Bounded(Siblings(targets), maxChain)
  {
    if r.LongChain? {
      var p :| IsPath(Siblings(targets), p) && p[0] == r.child && |p| == r.length + 1;
    }
  }

  /** Sixteen children cannot chain more than fifteen links: the length limit of 16 refuses nothing. */
  lemma LimitIsImplied(targets: seq<seq<nat>>)
    requires |targets| <= MAX_CHILDREN && WithinNodes(targets) && Acyclic(Siblings(targets))
    ensures Bounded(Siblings(targets), MAX_CHAIN)
  {
    var succ := Siblings(targets);
    forall p | IsPath(succ, p) ensures |p| <= MAX_CHAIN + 1 {
      if |p| > 1 {
        AcyclicPathsDistinct(succ, p);
        forall i | 0 <= i < |p| ensures p[i] in Upto(|targets|) {
          if i < |p| - 1 {
            assert p[i + 1] in succ(p[i]);
          } else {
            assert p[i - 1 + 1] in succ(p[i - 1]);
          }
        }
        DistinctFit(p, Upto(|targets|));
      }
    }
  }
}
