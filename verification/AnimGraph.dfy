/** Node hierarchies: parents in any order, cycles possible, composed to graph space in place. */
module AnimGraph {
  import opened Finite

  /** A node's parent is -1 or itself at a root; the loader keeps it below the node count. */
  predicate Hierarchy(parents: seq<int>) {
    forall i :: 0 <= i < |parents| ==> parents[i] < |parents|
  }

  predicate HasParent(parents: seq<int>, i: nat)
    requires i < |parents|
  {
    parents[i] >= 0 && parents[i] != i
  }

  /** Following k parents from i ends at a root. */
  predicate Reaches(parents: seq<int>, i: nat, k: nat)
    requires Hierarchy(parents) && i < |parents|
    decreases k
  {
    if k == 0 then !HasParent(parents, i) else HasParent(parents, i) && Reaches(parents, parents[i], k - 1)
  }

  ghost predicate Rooted(parents: seq<int>, i: nat)
    requires Hierarchy(parents) && i < |parents|
  {
    exists k: nat :: Reaches(parents, i, k)
  }

  /** The nodes from the root down to i. */
  function Chain(parents: seq<int>, i: nat, k: nat): (r: seq<nat>)
    requires Hierarchy(parents) && i < |parents| && Reaches(parents, i, k)
    ensures |r| == k + 1 && forall j :: 0 <= j < |r| ==> r[j] < |parents|
    decreases k
  {
    if k == 0 then [i] else Chain(parents, parents[i], k - 1) + [i]
  }

  /** The product of the transforms along a chain, root first. */
  function Compose<T>(mul: (T, T) -> T, local: seq<T>, chain: seq<nat>): T
    requires |chain| > 0 && forall j :: 0 <= j < |chain| ==> chain[j] < |local|
  {
    if |chain| == 1 then local[chain[0]]
    else mul(Compose(mul, local, chain[..|chain| - 1]), local[chain[|chain| - 1]])
  }

  lemma {:induction false} ReachesOnce(parents: seq<int>, i: nat, k: nat, l: nat)
    requires Hierarchy(parents) && i < |parents| && Reaches(parents, i, k) && Reaches(parents, i, l)
    ensures k == l
    decreases k
  {
    if k > 0 && l > 0 {
      ReachesOnce(parents, parents[i], k - 1, l - 1);
    }
  }

  /** What composing leaves at node i. */
  ghost predicate Placed<T>(mul: (T, T) -> T, parents: seq<int>, local: seq<T>, i: nat, x: T)
    requires Hierarchy(parents) && |local| == |parents| && i < |parents|
  {
    exists k: nat :: Reaches(parents, i, k) && x == Compose(mul, local, Chain(parents, i, k))
  }

  /** A rooted node has one place: its chain to the root is the only one. */
  lemma PlacedOnce<T>(mul: (T, T) -> T, parents: seq<int>, local: seq<T>, i: nat, x: T, y: T)
    requires Hierarchy(parents) && |local| == |parents| && i < |parents|
    requires Placed(mul, parents, local, i, x) && Placed(mul, parents, local, i, y)
    ensures x == y
  {
    var k: nat :| Reaches(parents, i, k) && x == Compose(mul, local, Chain(parents, i, k));
    var l: nat :| Reaches(parents, i, l) && y == Compose(mul, local, Chain(parents, i, l));
    ReachesOnce(parents, i, k, l);
  }

  lemma PlacedUnderParent<T>(mul: (T, T) -> T, parents: seq<int>, local: seq<T>, i: nat, x: T)
    requires Hierarchy(parents) && |local| == |parents| && i < |parents| && HasParent(parents, i)
    requires Placed(mul, parents, local, parents[i], x)
    ensures Placed(mul, parents, local, i, mul(x, local[i]))
  {
    var k: nat :| Reaches(parents, parents[i], k) && x == Compose(mul, local, Chain(parents, parents[i], k));
    var chain := Chain(parents, parents[i], k);
    assert Reaches(parents, i, k + 1) && Chain(parents, i, k + 1) == chain + [i];
    assert (chain + [i])[..|chain|] == chain;
  }

  /** Nothing unfinished is a root or hangs under something finished. */
  ghost predicate Stuck(parents: seq<int>, done: seq<bool>)
    requires Hierarchy(parents) && |done| == |parents|
  {
    forall j :: 0 <= j < |parents| && !done[j] ==> HasParent(parents, j) && !done[parents[j]]
  }

  lemma {:induction false} StuckNeverReaches(parents: seq<int>, done: seq<bool>, j: nat, k: nat)
    requires Hierarchy(parents) && |done| == |parents| && Stuck(parents, done) && j < |parents| && !done[j]
    ensures !Reaches(parents, j, k)
    decreases k
  {
    if k > 0 {
      StuckNeverReaches(parents, done, parents[j], k - 1);
    }
  }

  ghost function Finished(done: seq<bool>): set<nat> {
    set i: nat | i < |done| && done[i]
  }

  lemma FinishedAll(done: seq<bool>)
    requires |Finished(done)| >= |done|
    ensures forall i :: 0 <= i < |done| ==> done[i]
  {
    if i :| 0 <= i < |done| && !done[i] {
      assert Finished(done) <= Upto(|done|) - {i};
      SubsetSize(Finished(done), Upto(|done|) - {i});
    }
  }

  lemma OneMoreFinished(done: seq<bool>, i: nat)
    requires i < |done| && !done[i]
    ensures |Finished(done[i := true])| == |Finished(done)| + 1
  {
    assert Finished(done[i := true]) == Finished(done) + {i};
  }

  /** What has been written so far: finished nodes are placed, the others' locals are still there
      (`local` and `out` may be one array). */
  ghost predicate Partial<T>(mul: (T, T) -> T, parents: seq<int>, original: seq<T>, local: seq<T>, out: seq<T>,
    done: seq<bool>)
    requires Hierarchy(parents) && |original| == |parents|
  {
    && |local| == |out| == |done| == |parents|
    && (forall i :: 0 <= i < |parents| && done[i] ==> Placed(mul, parents, original, i, out[i]))
    && (forall i :: 0 <= i < |parents| && !done[i] ==> local[i] == original[i])
  }

  /** Parent-relative to graph space: rooted nodes get the product along their chain, however the nodes are
      ordered; nodes above which a cycle closes keep their local. node_count passes always suffice. */
  method World<T>(mul: (T, T) -> T, parents: seq<int>, local: array<T>, out: array<T>)
    requires Hierarchy(parents) && local.Length == out.Length == |parents|
    modifies out
    ensures forall i :: 0 <= i < |parents| && Rooted(parents, i) ==> Placed(mul, parents, old(local[..]), i, out[i])
    ensures forall i :: 0 <= i < |parents| && !Rooted(parents, i) ==> out[i] == old(local[i])
  {
    hide Placed, Reaches, Finished, Partial, Rooted;
    assert Partial(mul, parents, local[..], local[..], out[..], seq(|parents|, _ => false)) by
      { NothingPlaced(mul, parents, local[..], out[..]); }
    ghost var original := local[..];
    var n := |parents|;
    var done: seq<bool> := seq(n, _ => false);
    var pass := 0;
    ghost var stuck := false;
    while pass < n
      invariant |done| == n
      invariant Partial(mul, parents, original, local[..], out[..], done)
      invariant !stuck && pass <= |Finished(done)|
      decreases n - pass
    {
      var progress := 0;
      var i := 0;
      while i < n
        invariant i <= n && |done| == n
        invariant Partial(mul, parents, original, local[..], out[..], done)
        invariant pass + progress <= |Finished(done)|
        invariant progress == 0 ==> forall j :: 0 <= j < i && !done[j] ==> HasParent(parents, j) && !done[parents[j]]
      {
        if !done[i] {
          ghost var before, outBefore := local[..], out[..];
          PartialFacts(mul, parents, original, before, outBefore, done);
          var p := parents[i];
          if p < 0 || p == i {
            RootPlaced(mul, parents, original, i);
            out[i] := local[i];
            OneMorePlaced(mul, parents, original, before, local[..], outBefore, out[..], done, i);
            done := done[i := true];
            progress := progress + 1;
          } else if done[p] {
            PlacedUnderParent(mul, parents, original, i, out[p]);
            out[i] := mul(out[p], local[i]);
            OneMorePlaced(mul, parents, original, before, local[..], outBefore, out[..], done, i);
            done := done[i := true];
            progress := progress + 1;
          }
        }
        i := i + 1;
      }
      if progress == 0 {
        stuck := true;
        break;
      }
      pass := pass + 1;
    }
    if !stuck {
      FinishedAll(done);
    }
    assert Stuck(parents, done);
    RootedExactlyDone(mul, parents, original, local[..], out[..], done);
    KeepLocals(mul, parents, local, out, done, original);
    PartialFacts(mul, parents, original, local[..], out[..], done);
  }

  /** The nodes left over keep their local. */
  method KeepLocals<T>(ghost mul: (T, T) -> T, ghost parents: seq<int>, local: array<T>, out: array<T>, done: seq<bool>,
                       ghost original: seq<T>)
    requires Hierarchy(parents) && |original| == |parents| && Partial(mul, parents, original, local[..], out[..], done)
    modifies out
    ensures Partial(mul, parents, original, local[..], out[..], done)
    ensures forall j :: 0 <= j < |done| && !done[j] ==> out[j] == original[j]
  {
    hide Placed;
    for i := 0 to |done|
      invariant Partial(mul, parents, original, local[..], out[..], done)
      invariant forall j :: 0 <= j < i && !done[j] ==> out[j] == original[j]
    {
      if !done[i] {
        out[i] := local[i];
      }
    }
  }

  lemma NothingPlaced<T>(mul: (T, T) -> T, parents: seq<int>, local: seq<T>, out: seq<T>)
    requires Hierarchy(parents) && |local| == |out| == |parents|
    ensures Partial(mul, parents, local, local, out, seq(|parents|, _ => false))
  {}

  lemma PartialFacts<T>(mul: (T, T) -> T, parents: seq<int>, original: seq<T>, local: seq<T>, out: seq<T>,
    done: seq<bool>)
    requires Hierarchy(parents) && |original| == |parents| && Partial(mul, parents, original, local, out, done)
    ensures |local| == |out| == |done| == |parents|
    ensures forall i :: 0 <= i < |parents| && done[i] ==> Placed(mul, parents, original, i, out[i])
    ensures forall i :: 0 <= i < |parents| && !done[i] ==> local[i] == original[i]
  {
    hide Placed;
  }

  /** Writing one node's place, whether or not the two arrays are one. */
  lemma OneMorePlaced<T>(mul: (T, T) -> T, parents: seq<int>, original: seq<T>, local: seq<T>, local': seq<T>,
                         out: seq<T>, out': seq<T>, done: seq<bool>, i: nat)
    requires Hierarchy(parents) && |original| == |parents| && Partial(mul, parents, original, local, out, done)
    requires i < |parents| && i < |done| && !done[i] && |out'| == |parents| &&
      Placed(mul, parents, original, i, out'[i])
    requires |out| == |local| == |parents|
    requires out' == out[i := out'[i]] && (local' == local || local' == local[i := out'[i]])
    ensures Partial(mul, parents, original, local', out', done[i := true])
    ensures |Finished(done[i := true])| == |Finished(done)| + 1
  {
    hide Placed;
    OneMoreFinished(done, i);
  }

  lemma RootPlaced<T>(mul: (T, T) -> T, parents: seq<int>, local: seq<T>, i: nat)
    requires Hierarchy(parents) && |local| == |parents| && i < |parents| && !HasParent(parents, i)
    ensures Placed(mul, parents, local, i, local[i])
  {
    assert Reaches(parents, i, 0);
  }

  lemma RootedExactlyDone<T>(mul: (T, T) -> T, parents: seq<int>, original: seq<T>, local: seq<T>, out: seq<T>,
    done: seq<bool>)
    requires Hierarchy(parents) && |original| == |parents| && Partial(mul, parents, original, local, out, done)
    requires Stuck(parents, done)
    ensures forall i :: 0 <= i < |parents| ==> (Rooted(parents, i) <==> done[i])
  {
    forall i | 0 <= i < |parents| ensures Rooted(parents, i) <==> done[i] {
      if done[i] {
        assert Placed(mul, parents, original, i, out[i]);
      } else if Rooted(parents, i) {
        var k: nat :| Reaches(parents, i, k);
        StuckNeverReaches(parents, done, i, k);
      }
    }
  }

  // ----- the nodes that keep their local are those whose chain enters a cycle

  /** The k-th ancestor, if the chain is that long. */
  ghost predicate Ancestor(parents: seq<int>, i: nat, k: nat, a: nat)
    requires Hierarchy(parents) && i < |parents|
    decreases k
  {
    if k == 0 then a == i else HasParent(parents, i) && Ancestor(parents, parents[i], k - 1, a)
  }

  /** Some ancestor comes back to itself. */
  ghost predicate EntersCycle(parents: seq<int>, i: nat)
    requires Hierarchy(parents) && i < |parents|
  {
    exists k: nat, l: nat, a: nat :: a < |parents| && l > 0 && Ancestor(parents, i, k, a) && Ancestor(parents, a, l, a)
  }

  lemma {:induction false} CycleNeverReaches(parents: seq<int>, a: nat, l: nat, k: nat)
    requires Hierarchy(parents) && a < |parents| && l > 0 && Ancestor(parents, a, l, a)
    ensures !Reaches(parents, a, k)
    decreases k
  {
    if Reaches(parents, a, k) {
      ReachesThrough(parents, a, l, a, k);
      CycleNeverReaches(parents, a, l, k - l);
    }
  }

  lemma {:induction false} ReachesThrough(parents: seq<int>, i: nat, k: nat, a: nat, m: nat)
    requires Hierarchy(parents) && i < |parents| && a < |parents| && Ancestor(parents, i, k, a) &&
      Reaches(parents, i, m)
    ensures m >= k && Reaches(parents, a, m - k)
    decreases k
  {
    if k > 0 {
      ReachesThrough(parents, parents[i], k - 1, a, m - 1);
    }
  }

  /** The first k + 1 ancestors, if there are that many. */
  lemma {:induction false} Walk(parents: seq<int>, i: nat, k: nat) returns (w: seq<nat>)
    requires Hierarchy(parents) && i < |parents| && forall m: nat :: m <= k ==> !Reaches(parents, i, m)
    ensures |w| == k + 1 && forall j :: 0 <= j < |w| ==> w[j] < |parents|
    ensures forall j, l :: 0 <= j <= l < |w| ==> Ancestor(parents, w[j], l - j, w[l])
    ensures w[0] == i
    decreases k
  {
    assert !Reaches(parents, i, 0);
    if k == 0 {
      w := [i];
    } else {
      forall m: nat | m <= k - 1 ensures !Reaches(parents, parents[i], m) {
        assert !Reaches(parents, i, m + 1);
      }
      var rest := Walk(parents, parents[i], k - 1);
      w := [i] + rest;
      forall j, l | 0 <= j <= l < |w| ensures Ancestor(parents, w[j], l - j, w[l]) {
        if j > 0 {
          assert Ancestor(parents, rest[j - 1], l - j, rest[l - 1]);
        } else if l > 0 {
          assert Ancestor(parents, rest[0], l - 1, rest[l - 1]);
        }
      }
    }
  }

  /** A chain that never reaches a root enters a cycle, and the other way round. */
  lemma RootedOrCyclic(parents: seq<int>, i: nat)
    requires Hierarchy(parents) && i < |parents|
    ensures Rooted(parents, i) <==> !EntersCycle(parents, i)
  {
    if EntersCycle(parents, i) {
      var k: nat, l: nat, a: nat :| a < |parents| && l > 0 && Ancestor(parents, i, k, a) && Ancestor(parents, a, l, a);
      forall m: nat | Reaches(parents, i, m) ensures false {
        ReachesThrough(parents, i, k, a, m);
        CycleNeverReaches(parents, a, l, m - k);
      }
    }
    if !Rooted(parents, i) {
      var w := Walk(parents, i, |parents|);
      var j, l := Pigeonhole(w, |parents|);
      assert Ancestor(parents, w[0], j - 0, w[j]) && Ancestor(parents, w[j], l - j, w[l]);
    }
  }
}

/** Uncompressed animations: per-node components packed in a frame block or a default block, by flags. */
module AnimSampling {
  import opened Bits

  /** Three flags a node: rotation, translation, scale; set means the component varies by frame. */
  datatype Animation = Animation(
    nodeCount: nat, flags: seq<bool>, frameCount: nat, frameSize: nat,
    defaultOff: Word, defaultSize: Word, frameOff: Word, frameBytes: Word)

  predicate Shaped(a: Animation) {
    a.nodeCount <= 64 && |a.flags| == 3 * 64 && a.frameCount < 0x1_0000 && a.frameSize < 0x1_0000
  }

  /** Rotation 8 bytes, translation 12, scale 4. */
  function Size(component: nat): nat {
    if component % 3 == 0 then 8 else if component % 3 == 1 then 12 else 4
  }

  /** Bytes of the components before the j-th that vary (or that do not). */
  function Packed(flags: seq<bool>, j: nat, varying: bool): nat
    requires j <= |flags|
  {
    if j == 0 then 0 else Packed(flags, j - 1, varying) + if flags[j - 1] == varying then Size(j - 1) else 0
  }

  lemma {:induction false} PackedTogether(flags: seq<bool>, nodes: nat)
    requires 3 * nodes <= |flags|
    ensures Packed(flags, 3 * nodes, true) + Packed(flags, 3 * nodes, false) == 24 * nodes
  {
    if nodes > 0 {
      PackedTogether(flags, nodes - 1);
      var j := 3 * nodes - 3;
      PackedNode(flags, j, true);
      PackedNode(flags, j, false);
    }
  }

  lemma PackedNode(flags: seq<bool>, j: nat, varying: bool)
    requires j + 3 <= |flags| && j % 3 == 0
    ensures Packed(flags, j + 3, varying) == Packed(flags, j, varying) + (if flags[j] == varying then 8 else 0)
            + (if flags[j + 1] == varying then 12 else 0) + (if flags[j + 2] == varying then 4 else 0)
  {
    assert Packed(flags, j + 1, varying) == Packed(flags, j, varying) + if flags[j] == varying then 8 else 0;
    assert Packed(flags, j + 2, varying) == Packed(flags, j + 1, varying) + if flags[j + 1] == varying then 12 else 0;
  }

  lemma {:induction false} PackedGrows(flags: seq<bool>, j: nat, k: nat, varying: bool)
    requires j <= k <= |flags|
    ensures Packed(flags, j, varying) <= Packed(flags, k, varying)
  {
    if j < k {
      PackedGrows(flags, j, k - 1, varying);
    }
  }

  lemma PackedNext(flags: seq<bool>, j: nat)
    requires j < |flags|
    ensures Packed(flags, j + 1, flags[j]) == Packed(flags, j, flags[j]) + Size(j)
    ensures Packed(flags, j + 1, !flags[j]) == Packed(flags, j, !flags[j])
  {}

  method FlaggedFrameSize(a: Animation) returns (total: nat)
    requires Shaped(a)
    ensures total == Packed(a.flags, 3 * a.nodeCount, true)
  {
    total := 0;
    for i := 0 to a.nodeCount
      invariant total == Packed(a.flags, 3 * i, true)
    {
      PackedNode(a.flags, 3 * i, true);
      if a.flags[3 * i] { total := total + 8; }
      if a.flags[3 * i + 1] { total := total + 12; }
      if a.flags[3 * i + 2] { total := total + 4; }
    }
  }

  /** The loader's size invariant. */
  method LoadAccepts(a: Animation) returns (ok: bool)
    requires Shaped(a)
    ensures ok <==> Accepted(a)
  {
    var want := FlaggedFrameSize(a);
    PackedTogether(a.flags, a.nodeCount);
    ok := want == a.frameSize && (a.defaultSize == 0 || a.defaultSize == a.nodeCount * 24 - want);
  }

  /** Frame data is exactly the varying components; default data, when there is any, exactly the rest. */
  predicate Accepted(a: Animation)
    requires Shaped(a)
  {
    && a.frameSize == Packed(a.flags, 3 * a.nodeCount, true)
    && (a.defaultSize == 0 || a.defaultSize == Packed(a.flags, 3 * a.nodeCount, false))
  }

  function Wrap(x: int): Word {
    x % 0x1_0000_0000
  }

  lemma WrapAdd(x: nat, n: nat)
    ensures Wrap(Wrap(x) + n) == Wrap(x + n)
  {}

  /** One node's three components, taken from whichever cursor its flag names. */
  method ReadNode(a: Animation, node: nat, dcur0: Word, fcur0: Word, ghost defaults: nat, ghost frame: nat)
    returns (dcur: Word, fcur: Word, at: seq<Word>)
    requires Shaped(a) && node < a.nodeCount
    requires dcur0 == Wrap(defaults + Packed(a.flags, 3 * node, false)) &&
      fcur0 == Wrap(frame + Packed(a.flags, 3 * node, true))
    ensures dcur == Wrap(defaults + Packed(a.flags, 3 * node + 3, false))
    ensures fcur == Wrap(frame + Packed(a.flags, 3 * node + 3, true))
    ensures |at| == 3 && forall c :: 0 <= c < 3 ==> at[c] == ComponentAt(a, defaults, frame, 3 * node + c)
  {
    hide Wrap, Packed, Size;
    dcur, fcur, at := dcur0, fcur0, [];
    for c := 0 to 3
      invariant |at| == c && forall b :: 0 <= b < c ==> at[b] == ComponentAt(a, defaults, frame, 3 * node + b)
      invariant dcur == Wrap(defaults + Packed(a.flags, 3 * node + c, false))
      invariant fcur == Wrap(frame + Packed(a.flags, 3 * node + c, true))
    {
      var j := 3 * node + c;
      PackedNext(a.flags, j);
      WrapAdd(frame + Packed(a.flags, j, true), Size(j));
      WrapAdd(defaults + Packed(a.flags, j, false), Size(j));
      if a.flags[j] {
        at := at + [fcur];
        fcur := Wrap(fcur + Size(j));
      } else {
        at := at + [dcur];
        dcur := Wrap(dcur + Size(j));
      }
    }
  }

  /** Where the layout puts component j: packed after the like ones before it. */
  function ComponentAt(a: Animation, defaults: nat, frame: nat, j: nat): Word
    requires j < |a.flags|
  {
    Wrap((if a.flags[j] then frame else defaults) + Packed(a.flags, j, a.flags[j]))
  }

  /** Reads every component of one frame; refuses a frame past the frame data. */
  method SampleFrame(a: Animation, frame: nat) returns (ok: bool, at: seq<Word>, dcur: Word, fcur: Word)
    requires Shaped(a)
    ensures ok <==> Samples(a, frame)
    ensures ok ==> |at| == 3 * a.nodeCount
    ensures ok ==> forall j :: 0 <= j < |at| ==>
      at[j] == ComponentAt(a, a.defaultOff, a.frameOff + frame * a.frameSize, j)
    ensures ok ==> dcur == Wrap(a.defaultOff + Packed(a.flags, 3 * a.nodeCount, false))
    ensures ok ==> fcur == Wrap(a.frameOff + frame * a.frameSize + Packed(a.flags, 3 * a.nodeCount, true))
  {
    hide Wrap, Packed, ComponentAt;
    NoWrap(a.defaultOff);
    PackedNone(a.flags);
    at, dcur, fcur := [], a.defaultOff, Wrap(a.frameOff + frame * a.frameSize);
    if a.frameSize != 0 && fcur + a.frameSize > a.frameOff + a.frameBytes {
      return false, at, dcur, fcur;
    }
    for i := 0 to a.nodeCount
      invariant dcur == Wrap(a.defaultOff + Packed(a.flags, 3 * i, false))
      invariant fcur == Wrap(a.frameOff + frame * a.frameSize + Packed(a.flags, 3 * i, true))
      invariant |at| == 3 * i
      invariant forall j :: 0 <= j < |at| ==> at[j] == ComponentAt(a, a.defaultOff, a.frameOff + frame * a.frameSize, j)
    {
      var three;
      dcur, fcur, three := ReadNode(a, i, dcur, fcur, a.defaultOff, a.frameOff + frame * a.frameSize);
      at := at + three;
    }
    ok := true;
  }

  /** Where a component belongs: its frame's block, or the default block. */
  function BlockStart(a: Animation, frame: nat, j: nat): nat
    requires j < |a.flags|
  {
    if a.flags[j] then a.frameOff + frame * a.frameSize else a.defaultOff
  }

  function BlockSize(a: Animation, j: nat): nat
    requires j < |a.flags|
  {
    if a.flags[j] then a.frameSize else a.defaultSize
  }

  predicate InsideBlock(a: Animation, frame: nat, j: nat)
    requires j < |a.flags|
  {
    var at := ComponentAt(a, a.defaultOff, a.frameOff + frame * a.frameSize, j);
    BlockStart(a, frame, j) <= at && at + Size(j) <= BlockStart(a, frame, j) + BlockSize(a, j)
  }

  /** In an accepted animation a component is read inside its own block exactly when its offset does not wrap 32 bits
      and the block is there: default data may be empty, and then no default component has a place of its own. */
  lemma InsideBlockExactlyWhen(a: Animation, frame: nat, j: nat)
    requires Shaped(a) && Accepted(a) && j < 3 * a.nodeCount
    ensures InsideBlock(a, frame, j) <==>
      (a.flags[j] || a.defaultSize != 0) && BlockStart(a, frame, j) + Packed(a.flags, j, a.flags[j]) < 0x1_0000_0000
  {
    hide Packed;
    PackedGrows(a.flags, j + 1, 3 * a.nodeCount, a.flags[j]);
    PackedNext(a.flags, j);
    var x := BlockStart(a, frame, j) + Packed(a.flags, j, a.flags[j]);
    if x < 0x1_0000_0000 {
      NoWrap(x);
    }
  }

  /** In an accepted animation with default data, every component of a frame that samples lies inside its own block,
      as long as the blocks end within 32 bits, and the frame's block inside the frame data. */
  lemma ComponentsInsideBlocks(a: Animation, frame: nat, j: nat)
    requires Shaped(a) && Accepted(a) && j < 3 * a.nodeCount && a.defaultSize != 0
    requires a.defaultOff + a.defaultSize <= 0x1_0000_0000
    requires a.frameOff + frame * a.frameSize + a.frameSize <= 0x1_0000_0000
    requires Samples(a, frame)
    ensures InsideBlock(a, frame, j)
    ensures a.flags[j] ==> BlockStart(a, frame, j) + BlockSize(a, j) <= a.frameOff + a.frameBytes
  {
    hide Packed;
    PackedGrows(a.flags, j + 1, 3 * a.nodeCount, a.flags[j]);
    PackedNext(a.flags, j);
    InsideBlockExactlyWhen(a, frame, j);
    if a.flags[j] {
      NoWrap(a.frameOff + frame * a.frameSize);
    }
  }

  /** The frames that are not refused. */
  predicate Samples(a: Animation, frame: nat) {
    a.frameSize == 0 || Wrap(a.frameOff + frame * a.frameSize) + a.frameSize <= a.frameOff + a.frameBytes
  }

  /** An accepted animation near the end of a four-gigabyte file, which says it has four frames and holds one: nobody
      compares the two, and its last frame samples from the start of the file. */
  lemma WrappedFrameSamples() returns (a: Animation)
    ensures Shaped(a) && Accepted(a) && a.nodeCount == 1 && a.defaultSize != 0 && a.frameCount == 4
    ensures a.frameBytes == a.frameSize && a.frameOff + a.frameBytes < 0x1_0000_0000
    ensures Samples(a, 3) && !InsideBlock(a, 3, 0)
    ensures ComponentAt(a, a.defaultOff, a.frameOff + 3 * a.frameSize, 0) == 0
  {
    a := Animation(1, seq(192, i => i < 2), 4, 20, 0x5000_0000, 4, 0xFFFF_FFC4, 20);
    PackedNone(a.flags);
    PackedNode(a.flags, 0, true);
    PackedNode(a.flags, 0, false);
    InsideBlockExactlyWhen(a, 3, 0);
  }

  lemma PackedNone(flags: seq<bool>)
    ensures forall v :: Packed(flags, 0, v) == 0
  {}

  lemma NoWrap(x: nat)
    requires x < 0x1_0000_0000
    ensures Wrap(x) == x
  {}

  /** Like components follow one another without gap or overlap. */
  lemma LikeComponentsDisjoint(a: Animation, j: nat, k: nat)
    requires Shaped(a) && j < k < |a.flags| && a.flags[j] == a.flags[k]
    ensures Packed(a.flags, j, a.flags[j]) + Size(j) <= Packed(a.flags, k, a.flags[k])
  {
    PackedGrows(a.flags, j + 1, k, a.flags[j]);
  }
}
