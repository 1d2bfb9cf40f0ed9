/** Directed graphs given by successor lists: paths, cycles, longest chains, and what a depth-first
    search with an explicit stack keeps true. */
module Graphs {
  import opened Finite

  type Succ<!N> = N -> seq<N>

  ghost predicate IsPath<N(!new)>(succ: Succ<N>, p: seq<N>) {
    |p| > 0 && forall i :: 0 <= i < |p| - 1 ==> p[i + 1] in succ(p[i])
  }

  /** A path from a to b; it has |p| - 1 links. */
  ghost predicate Joins<N(!new)>(succ: Succ<N>, p: seq<N>, a: N, b: N) {
    IsPath(succ, p) && p[0] == a && p[|p| - 1] == b
  }

  ghost predicate Reachable<N(!new)>(succ: Succ<N>, a: N, b: N) {
    exists p :: Joins(succ, p, a, b)
  }

  ghost predicate IsCycle<N(!new)>(succ: Succ<N>, p: seq<N>) {
    IsPath(succ, p) && |p| > 1 && p[0] == p[|p| - 1]
  }

  ghost predicate Acyclic<N(!new)>(succ: Succ<N>) {
    forall p :: !IsCycle(succ, p)
  }

  /** The longest path from v has exactly d links. */
  ghost predicate Longest<N(!new)>(succ: Succ<N>, v: N, d: nat) {
    && (exists p :: IsPath(succ, p) && p[0] == v && |p| == d + 1)
    && (forall p :: IsPath(succ, p) && p[0] == v ==> |p| <= d + 1)
  }

  // ----- finishing order

  /** Every node's successors come before it. */
  ghost predicate Topological<N(!new)>(succ: Succ<N>, order: seq<N>) {
    forall i, w :: 0 <= i < |order| && w in succ(order[i]) ==> w in order[..i]
  }

  lemma {:induction false} PathDescends<N(!new)>(succ: Succ<N>, order: seq<N>, p: seq<N>, i: nat) returns (j: nat)
    requires Topological(succ, order) && IsPath(succ, p) && i < |order| && order[i] == p[0]
    ensures j + |p| - 1 <= i && order[j] == p[|p| - 1]
    decreases |p|
  {
    if |p| == 1 {
      j := i;
    } else {
      assert p[0 + 1] in succ(p[0]);
      var k :| 0 <= k < i && order[k] == p[1];
      assert IsPath(succ, p[1..]) by {
        forall m | 0 <= m < |p[1..]| - 1 ensures p[1..][m + 1] in succ(p[1..][m]) {
          assert p[m + 1 + 1] in succ(p[m + 1]);
        }
      }
      j := PathDescends(succ, order, p[1..], k);
    }
  }

  /** A graph whose nodes can be put in such an order, once each, has no cycle through them. */
  lemma OrderedIsAcyclic<N(!new)>(succ: Succ<N>, order: seq<N>, p: seq<N>)
    requires Topological(succ, order) && Distinct(order) && IsCycle(succ, p)
    ensures p[0] !in order
  {
    if p[0] in order {
      var i :| 0 <= i < |order| && order[i] == p[0];
      var j := PathDescends(succ, order, p, i);
    }
  }

  /** Everything reachable from an ordered node is ordered. */
  lemma OrderedIsClosed<N(!new)>(succ: Succ<N>, order: seq<N>, a: N, b: N)
    requires Topological(succ, order) && a in order && Reachable(succ, a, b)
    ensures b in order
  {
    var p :| Joins(succ, p, a, b);
    var i :| 0 <= i < |order| && order[i] == a;
    var j := PathDescends(succ, order, p, i);
  }

  /** A path in an acyclic graph visits no node twice. */
  lemma AcyclicPathsDistinct<N(!new)>(succ: Succ<N>, p: seq<N>)
    requires Acyclic(succ) && IsPath(succ, p)
    ensures Distinct(p)
  {
    forall i, k | 0 <= i < k < |p| ensures p[i] != p[k] {
      var q := p[i..k + 1];
      forall m | 0 <= m < |q| - 1 ensures q[m + 1] in succ(q[m]) {
        assert p[i + m + 1] in succ(p[i + m]);
      }
      assert !IsCycle(succ, q);
    }
  }

  lemma PathPrefixed<N(!new)>(succ: Succ<N>, v: N, p: seq<N>)
    requires IsPath(succ, p) && p[0] in succ(v)
    ensures IsPath(succ, [v] + p)
  {
    var q := [v] + p;
    forall m | 0 <= m < |q| - 1 ensures q[m + 1] in succ(q[m]) {
      if m > 0 {
        assert p[m - 1 + 1] in succ(p[m - 1]);
      }
    }
  }

  lemma PathAppended<N(!new)>(succ: Succ<N>, p: seq<N>, w: N)
    requires IsPath(succ, p) && w in succ(p[|p| - 1])
    ensures IsPath(succ, p + [w])
  {
    var q := p + [w];
    forall m | 0 <= m < |q| - 1 ensures q[m + 1] in succ(q[m]) {
      if m < |p| - 1 {
        assert p[m + 1] in succ(p[m]);
      }
    }
  }

  lemma PathTail<N(!new)>(succ: Succ<N>, p: seq<N>)
    requires IsPath(succ, p) && |p| > 1
    ensures IsPath(succ, p[1..]) && p[1] in succ(p[0])
  {
    assert p[0 + 1] in succ(p[0]);
    forall m | 0 <= m < |p[1..]| - 1 ensures p[1..][m + 1] in succ(p[1..][m]) {
      assert p[m + 1 + 1] in succ(p[m + 1]);
    }
  }

  /** One more than the longest chain of any successor is the longest chain. */
  lemma LongestFromSuccessors<N(!new)>(succ: Succ<N>, v: N, best: nat, depth: N -> nat)
    requires forall w :: w in succ(v) ==> Longest(succ, w, depth(w)) && depth(w) + 1 <= best
    requires best == 0 || exists w :: w in succ(v) && depth(w) + 1 == best
    ensures Longest(succ, v, best)
  {
    if best == 0 {
      assert IsPath(succ, [v]) && |[v]| == 1;
    } else {
      var w :| w in succ(v) && depth(w) + 1 == best;
      var p :| IsPath(succ, p) && p[0] == w && |p| == depth(w) + 1;
      PathPrefixed(succ, v, p);
      assert ([v] + p)[0] == v && |[v] + p| == best + 1;
    }
    forall p | IsPath(succ, p) && p[0] == v ensures |p| <= best + 1 {
      if |p| > 1 {
        PathTail(succ, p);
        assert Longest(succ, p[1], depth(p[1]));
      }
    }
  }

  // ----- depth-first search

  /** The state of a search: the path being explored with how far each node's successors are scanned,
      and the finished nodes in finishing order. */
  ghost predicate Search<N(!new)>(succ: Succ<N>, stack: seq<N>, next: seq<nat>, order: seq<N>) {
    && |stack| == |next|
    && Distinct(stack + order)
    && Topological(succ, order)
    && (forall i :: 0 <= i < |stack| ==> next[i] <= |succ(stack[i])|)
    && (forall i :: 0 <= i < |stack| - 1 ==> next[i] > 0 && succ(stack[i])[next[i] - 1] == stack[i + 1])
    && (forall i, k :: 0 <= i < |stack| && 0 <= k < next[i] - (if i < |stack| - 1 then 1 else 0) ==>
      succ(stack[i])[k] in order)
  }

  lemma SearchNothing<N(!new)>(succ: Succ<N>)
    ensures Search(succ, [], [], [])
  {
    var none: seq<N> := [];
    assert none + none == none;
  }

  lemma SearchStart<N(!new)>(succ: Succ<N>, order: seq<N>, root: N)
    requires Search(succ, [], [], order) && root !in order
    ensures Search(succ, [root], [0], order)
  {
    assert [] + order == order;
  }

  /** The explored path really is one. */
  lemma StackIsPath<N(!new)>(succ: Succ<N>, stack: seq<N>, next: seq<nat>, order: seq<N>)
    requires Search(succ, stack, next, order) && |stack| > 0
    ensures IsPath(succ, stack)
  {
    forall i | 0 <= i < |stack| - 1 ensures stack[i + 1] in succ(stack[i]) {
      assert succ(stack[i])[next[i] - 1] == stack[i + 1];
    }
  }

  lemma SearchSkip<N(!new)>(succ: Succ<N>, stack: seq<N>, next: seq<nat>, order: seq<N>)
    requires Search(succ, stack, next, order) && |stack| > 0
    requires next[|stack| - 1] < |succ(stack[|stack| - 1])| && succ(stack[|stack| - 1])[next[|stack| - 1]] in order
    ensures Search(succ, stack, next[|stack| - 1 := next[|stack| - 1] + 1], order)
  {}

  lemma SearchPush<N(!new)>(succ: Succ<N>, stack: seq<N>, next: seq<nat>, order: seq<N>)
    requires Search(succ, stack, next, order) && |stack| > 0
    requires next[|stack| - 1] < |succ(stack[|stack| - 1])|
    requires succ(stack[|stack| - 1])[next[|stack| - 1]] !in stack &&
      succ(stack[|stack| - 1])[next[|stack| - 1]] !in order
    ensures Search(succ, stack + [succ(stack[|stack| - 1])[next[|stack| - 1]]],
      next[|stack| - 1 := next[|stack| - 1] + 1] + [0], order)
  {
    var t := |stack| - 1;
    var w := succ(stack[t])[next[t]];
    var stack', next' := stack + [w], next[t := next[t] + 1] + [0];
    PushDistinct(stack, order, w);
    forall i | 0 <= i < |stack'| - 1 ensures next'[i] > 0 && succ(stack'[i])[next'[i] - 1] == stack'[i + 1] {
      if i < t {
        assert succ(stack[i])[next[i] - 1] == stack[i + 1];
      }
    }
    forall i, k | 0 <= i < |stack'| && 0 <= k < next'[i] - (if i < |stack'| - 1 then 1 else 0)
      ensures succ(stack'[i])[k] in order {
      assert i < |stack| && succ(stack[i])[k] in order;
    }
  }

  lemma PushDistinct<N>(stack: seq<N>, order: seq<N>, w: N)
    requires Distinct(stack + order) && w !in stack && w !in order
    ensures Distinct(stack + [w] + order)
  {
    var s, s' := stack + order, stack + [w] + order;
    forall i, k | 0 <= i < k < |s'| ensures s'[i] != s'[k] {
      if i != |stack| && k != |stack| {
        var a := if i < |stack| then i else i - 1;
        var b := if k < |stack| then k else k - 1;
        assert s'[i] == s[a] && s'[k] == s[b];
      } else if i == |stack| {
        assert s'[k] == order[k - |stack| - 1];
      }
    }
  }

  /** The path a search takes to b: no link it passes over could have led to b. */
  ghost predicate Leftmost<N(!new)>(succ: Succ<N>, p: seq<N>, links: seq<nat>, a: N, b: N) {
    && Joins(succ, p, a, b) && |links| == |p| - 1
    && forall i :: 0 <= i < |links| ==> TakesLink(succ, p[i], links[i], p[i + 1], b)
  }

  ghost predicate TakesLink<N(!new)>(succ: Succ<N>, v: N, link: nat, w: N, b: N) {
    && link < |succ(v)| && succ(v)[link] == w
    && forall k :: 0 <= k < link ==> !Reachable(succ, succ(v)[k], b)
  }

  lemma PathSuffix<N(!new)>(succ: Succ<N>, p: seq<N>, i: nat)
    requires IsPath(succ, p) && i < |p|
    ensures Reachable(succ, p[i], p[|p| - 1])
  {
    var q := p[i..];
    forall m | 0 <= m < |q| - 1 ensures q[m + 1] in succ(q[m]) {
      assert p[i + m + 1] in succ(p[i + m]);
    }
    assert Joins(succ, q, p[i], p[|p| - 1]);
  }

  /** There is only one such path, whatever cycles the graph has, when b is not met before its end. */
  lemma {:induction false} LeftmostPrefix<N(!new)>(succ: Succ<N>, p: seq<N>, links: seq<nat>, q: seq<N>,
    links': seq<nat>, a: N, b: N, n: nat)
    requires Leftmost(succ, p, links, a, b) && Leftmost(succ, q, links', a, b) && n < |p| && n < |q|
    ensures p[..n + 1] == q[..n + 1]
  {
    if n > 0 {
      LeftmostPrefix(succ, p, links, q, links', a, b, n - 1);
      assert p[n - 1] == p[..n][n - 1] == q[..n][n - 1] == q[n - 1];
      var m := n - 1;
      assert TakesLink(succ, p[m], links[m], p[m + 1], b) && TakesLink(succ, q[m], links'[m], q[m + 1], b);
      PathSuffix(succ, p, n);
      PathSuffix(succ, q, n);
      assert links[m] == links'[m];
      assert p[..n + 1] == p[..n] + [p[n]] && q[..n + 1] == q[..n] + [q[n]];
    }
  }

  lemma LeftmostUnique<N(!new)>(succ: Succ<N>, p: seq<N>, links: seq<nat>, q: seq<N>, links': seq<nat>, a: N, b: N)
    requires Leftmost(succ, p, links, a, b) && Leftmost(succ, q, links', a, b) && Distinct(p) && Distinct(q)
    ensures p == q
  {
    var n := if |p| <= |q| then |p| - 1 else |q| - 1;
    LeftmostPrefix(succ, p, links, q, links', a, b, n);
    assert p[n] == p[..n + 1][n] == q[..n + 1][n] == q[n];
    assert p[..n + 1] == q[..n + 1];
  }

  /** What the search meets next and has not finished, it meets on the leftmost path. */
  lemma SearchLeftmost<N(!new)>(succ: Succ<N>, stack: seq<N>, next: seq<nat>, order: seq<N>,
    w: N) returns (links: seq<nat>)
    requires Search(succ, stack, next, order) && |stack| > 0 && next[|stack| - 1] < |succ(stack[|stack| - 1])|
    requires w == succ(stack[|stack| - 1])[next[|stack| - 1]] && w !in order
    ensures Leftmost(succ, stack + [w], links, stack[0], w)
  {
    var t := |stack| - 1;
    var p := stack + [w];
    links := seq(|stack|, i requires 0 <= i < |stack| => if i < t && next[i] > 0 then next[i] - 1 else next[i]);
    StackIsPath(succ, stack, next, order);
    PathAppended(succ, stack, w);
    forall i | 0 <= i <= t ensures TakesLink(succ, p[i], links[i], p[i + 1], w) {
      if i < t {
        assert succ(stack[i])[next[i] - 1] == stack[i + 1];
      }
      forall k | 0 <= k < links[i] ensures !Reachable(succ, succ(stack[i])[k], w) {
        assert succ(stack[i])[k] in order;
        if Reachable(succ, succ(stack[i])[k], w) {
          OrderedIsClosed(succ, order, succ(stack[i])[k], w);
        }
      }
    }
  }

  lemma SearchPop<N(!new)>(succ: Succ<N>, stack: seq<N>, next: seq<nat>, order: seq<N>)
    requires Search(succ, stack, next, order) && |stack| > 0 && next[|stack| - 1] == |succ(stack[|stack| - 1])|
    ensures Search(succ, stack[..|stack| - 1], next[..|stack| - 1], order + [stack[|stack| - 1]])
  {
    var t := |stack| - 1;
    var v := stack[t];
    var order' := order + [v];
    forall i, w | 0 <= i < |order'| && w in succ(order'[i]) ensures w in order'[..i] {
      if i < |order| {
        assert order'[..i] == order[..i];
      } else {
        var k :| 0 <= k < |succ(v)| && succ(v)[k] == w;
        assert order'[..i] == order;
      }
    }
    PopDistinct(stack, order);
    forall i, k | 0 <= i < t && 0 <= k < next[i] - (if i < t - 1 then 1 else 0) ensures succ(stack[i])[k] in order' {
      if i == t - 1 && k == next[i] - 1 {
        assert succ(stack[i])[next[i] - 1] == stack[i + 1];
      } else {
        assert succ(stack[i])[k] in order;
      }
    }
  }

  lemma TopIsNew<N(!new)>(succ: Succ<N>, stack: seq<N>, next: seq<nat>, order: seq<N>)
    requires Search(succ, stack, next, order) && |stack| > 0
    ensures stack[|stack| - 1] !in order && stack[|stack| - 1] !in stack[..|stack| - 1]
  {
    var t := |stack| - 1;
    var both := stack + order;
    assert both[t] == stack[t];
    forall i | 0 <= i < |order| ensures order[i] != stack[t] {
      assert both[|stack| + i] == order[i];
    }
    forall i | 0 <= i < t ensures stack[i] != stack[t] {
      assert both[i] == stack[i];
    }
  }

  lemma PopDistinct<N>(stack: seq<N>, order: seq<N>)
    requires |stack| > 0 && Distinct(stack + order)
    ensures Distinct(stack[..|stack| - 1] + (order + [stack[|stack| - 1]]))
  {
    var s := stack + order;
    var t := |stack| - 1;
    var s' := stack[..t] + (order + [stack[t]]);
    forall i, k | 0 <= i < k < |s'| ensures s'[i] != s'[k] {
      var a := if i < t then i else if i < t + |order| then i + 1 else t;
      var b := if k < t then k else if k < t + |order| then k + 1 else t;
      assert s'[i] == s[a] && s'[k] == s[b] && a != b;
    }
  }

  /** A successor that is on the stack closes a cycle. */
  lemma SearchCycle<N(!new)>(succ: Succ<N>, stack: seq<N>, next: seq<nat>, order: seq<N>, from: nat)
    requires Search(succ, stack, next, order) && from < |stack|
    requires next[|stack| - 1] < |succ(stack[|stack| - 1])| &&
      stack[from] == succ(stack[|stack| - 1])[next[|stack| - 1]]
    ensures IsCycle(succ, stack[from..] + [stack[from]])
  {
    var q := stack[from..];
    forall m | 0 <= m < |q| - 1 ensures q[m + 1] in succ(q[m]) {
      assert succ(stack[from + m])[next[from + m] - 1] == stack[from + m + 1];
    }
    PathAppended(succ, q, stack[from]);
  }

  /** How far down the stack a node is. */
  method IndexOf<N(==)>(stack: seq<N>, w: N) returns (from: nat)
    requires w in stack
    ensures from < |stack| && stack[from] == w
  {
    from := 0;
    while from < |stack| && stack[from] != w
      invariant from <= |stack| && w !in stack[..from]
    {
      from := from + 1;
    }
  }
}
