/** A library's asset payload: members laid end to end, each backing exactly one resource, each decoded whole. */
module AssetPayload {
  import opened Bits
  import opened Finite
  import opened LittleEndian
  import opened Options
  import opened Tables
  import opened Texts

  const MAX_PAYLOAD := 100663296
  const MAX_VERTICES := 262144
  const MAX_INDICES := 786432
  const MAX_GROUPS := 64

  datatype Member = Member(path: string, size: nat)

  /** What a resource expects of its member. */
  datatype Shape = Image(width: nat, height: nat) | Clip(frames: nat, channels: nat) | Model(slots: nat)
  datatype Want = Want(path: string, shape: Shape)

  datatype Group = Group(first: nat, count: nat, slot: nat)
  datatype Mesh = Mesh(vertices: seq<seq<Word>>, indices: seq<nat>, groups: seq<Group>)
  datatype Decoded = Pixels(bytes: Bytes) | Samples(values: seq<int>) | Triangles(mesh: Mesh)

  // ----- meshes

  function Rd(p: Bytes, at: nat): nat
    requires at + 4 <= |p|
  {
    Value(p[at..at + 4])
  }

  /** Finite and at most 4096 either way, by the bits of the float. */
  predicate InBounds(bits: nat) { bits % 0x8000_0000 <= 0x4580_0000 }

  /** By the parts of the float: an exponent below 2^12, or 2^12 itself; that leaves out infinities and NaNs. */
  lemma InBoundsMeans(bits: Word)
    ensures var exponent, fraction := bits / 0x80_0000 % 256, bits % 0x80_0000;
      InBounds(bits) <==> exponent < 127 + 12 || (exponent == 127 + 12 && fraction == 0)
  {}

  function Magic(): Bytes { ['M' as int, 'S' as int, 'H' as int, '1' as int] }

  function MeshSize(vertices: nat, indices: nat, groups: nat): nat { 16 + 40 * vertices + 4 * indices + 12 * groups }

  ghost predicate VertexSays(p: Bytes, i: nat, v: seq<Word>)
    requires 16 + 40 * i + 40 <= |p|
  {
    |v| == 10 && forall j :: 0 <= j < 10 ==> v[j] == Rd(p, 16 + 40 * i + 4 * j)
  }

  function GroupSaid(p: Bytes, at: nat): Group
    requires at + 12 <= |p|
  {
    Group(Rd(p, at), Rd(p, at + 4), Rd(p, at + 8))
  }

  /** The layout: the magic, three counts, the vertices, the indices, the groups, and nothing else. */
  ghost predicate Says(p: Bytes, m: Mesh) {
    && |p| == MeshSize(|m.vertices|, |m.indices|, |m.groups|) && p[..4] == Magic()
    && Rd(p, 4) == |m.vertices| && Rd(p, 8) == |m.indices| && Rd(p, 12) == |m.groups|
    && (forall i :: 0 <= i < |m.vertices| ==> VertexSays(p, i, m.vertices[i]))
    && (forall i :: 0 <= i < |m.indices| ==> m.indices[i] == Rd(p, 16 + 40 * |m.vertices| + 4 * i))
    && (forall i :: 0 <= i < |m.groups| ==>
      m.groups[i] == GroupSaid(p, 16 + 40 * |m.vertices| + 4 * |m.indices| + 12 * i))
  }

  /** Where the i-th group must start. */
  function GroupStart(groups: seq<Group>, i: nat): nat
    requires i <= |groups|
  {
    if i == 0 then 0 else groups[i - 1].first + groups[i - 1].count
  }

  ghost predicate GroupFits(groups: seq<Group>, i: nat, indices: nat, slots: nat)
    requires i < |groups|
  {
    && groups[i].first == GroupStart(groups, i) && groups[i].count > 0 && groups[i].count % 3 == 0
    && groups[i].first + groups[i].count <= indices && groups[i].slot < slots
  }

  ghost predicate ValidMesh(m: Mesh, slots: nat) {
    && 0 < |m.vertices| <= MAX_VERTICES && 3 <= |m.indices| <= MAX_INDICES && |m.indices| % 3 == 0 &&
      0 < |m.groups| <= MAX_GROUPS
    && (forall i :: 0 <= i < |m.vertices| ==> VertexFits(m.vertices[i]))
    && (forall i :: 0 <= i < |m.indices| ==> m.indices[i] < |m.vertices|)
    && (forall i :: 0 <= i < |m.groups| ==> GroupFits(m.groups, i, |m.indices|, slots))
    && GroupStart(m.groups, |m.groups|) == |m.indices|
  }

  ghost predicate VertexFits(v: seq<Word>) { forall j :: 0 <= j < |v| ==> InBounds(v[j]) }

  /** The groups tile the index array: every index is in exactly one. */
  lemma {:induction false} GroupsTile(m: Mesh, slots: nat, k: nat) returns (i: nat)
    requires ValidMesh(m, slots) && k < |m.indices|
    ensures i < |m.groups| && m.groups[i].first <= k < m.groups[i].first + m.groups[i].count
    ensures forall j :: 0 <= j < |m.groups| && m.groups[j].first <= k < m.groups[j].first + m.groups[j].count ==> j == i
  {
    i := 0;
    while k >= m.groups[i].first + m.groups[i].count
      invariant i < |m.groups| && GroupStart(m.groups, i) <= k
      decreases |m.groups| - i
    {
      assert GroupFits(m.groups, i, |m.indices|, slots);
      assert GroupStart(m.groups, i + 1) <= k;
      i := i + 1;
    }
    assert GroupFits(m.groups, i, |m.indices|, slots);
    forall j | 0 <= j < |m.groups| && m.groups[j].first <= k < m.groups[j].first + m.groups[j].count ensures j == i {
      if j < i { GroupsAscend(m, slots, j, i); } else if i < j { GroupsAscend(m, slots, i, j); }
    }
  }

  lemma {:induction false} GroupsAscend(m: Mesh, slots: nat, i: nat, j: nat)
    requires ValidMesh(m, slots) && i < j < |m.groups|
    ensures m.groups[i].first + m.groups[i].count <= m.groups[j].first
  {
    assert GroupFits(m.groups, j, |m.indices|, slots);
    if i + 1 < j {
      GroupsAscend(m, slots, i, j - 1);
      assert GroupFits(m.groups, j - 1, |m.indices|, slots);
    }
  }

  ghost predicate NoMesh(p: Bytes, slots: nat) { forall m :: Says(p, m) ==> !ValidMesh(m, slots) }

  lemma WordFits(p: Bytes, at: nat)
    requires at + 4 <= |p|
    ensures Rd(p, at) < 0x1_0000_0000
  {
    PutOfGet(p[at..at + 4]);
    Sizes();
  }

  lemma BadVertex(p: Bytes, slots: nat, i: nat, j: nat)
    requires 16 + 40 * i + 40 <= |p| && i < Rd(p, 4) && j < 10 && !InBounds(Rd(p, 16 + 40 * i + 4 * j))
    ensures NoMesh(p, slots)
  {
    forall m | Says(p, m) ensures !ValidMesh(m, slots) {
      assert VertexSays(p, i, m.vertices[i]);
      assert !VertexFits(m.vertices[i]) by { assert !InBounds(m.vertices[i][j]); }
    }
  }

  lemma BadIndex(p: Bytes, slots: nat, i: nat)
    requires |p| >= 16 && i < Rd(p, 8) && 16 + 40 * Rd(p, 4) + 4 * i + 4 <= |p| &&
      Rd(p, 16 + 40 * Rd(p, 4) + 4 * i) >= Rd(p, 4)
    ensures NoMesh(p, slots)
  {
    forall m | Says(p, m) ensures !ValidMesh(m, slots) {
      assert m.indices[i] >= |m.vertices|;
    }
  }

  /** The groups as read, and none of them can be otherwise. */
  ghost predicate GroupsRead(p: Bytes, at: nat, groups: seq<Group>) {
    forall i :: 0 <= i < |groups| ==> at + 12 * i + 12 <= |p| && groups[i] == GroupSaid(p, at + 12 * i)
  }

  lemma BadGroup(p: Bytes, slots: nat, groups: seq<Group>)
    requires |p| >= 16 && 0 < |groups| <= Rd(p, 12) && GroupsRead(p, 16 + 40 * Rd(p, 4) + 4 * Rd(p, 8), groups)
    requires !GroupFits(groups, |groups| - 1, Rd(p, 8), slots)
    ensures NoMesh(p, slots)
  {
    hide Rd, VertexSays, VertexFits, InBounds;
    var i := |groups| - 1;
    forall m | Says(p, m) ensures !ValidMesh(m, slots) {
      assert m.groups[i] == groups[i];
      if i > 0 { assert m.groups[i - 1] == groups[i - 1]; }
      assert !GroupFits(m.groups, i, |m.indices|, slots);
    }
  }

  lemma ShortGroups(p: Bytes, slots: nat, groups: seq<Group>)
    requires |p| >= 16 && 0 < |groups| == Rd(p, 12) && GroupsRead(p, 16 + 40 * Rd(p, 4) + 4 * Rd(p, 8), groups)
    requires GroupStart(groups, |groups|) != Rd(p, 8)
    ensures NoMesh(p, slots)
  {
    var i := |groups| - 1;
    forall m | Says(p, m) ensures !ValidMesh(m, slots) {
      assert m.groups[i] == groups[i];
    }
  }

  method ReadVertex(p: Bytes, i: nat) returns (v: Option<seq<Word>>, ghost bad: nat)
    requires 16 + 40 * i + 40 <= |p|
    ensures v.Some? ==> VertexSays(p, i, v.value) && VertexFits(v.value)
    ensures v.None? ==> bad < 10 && !InBounds(Rd(p, 16 + 40 * i + 4 * bad))
  {
    hide InBounds, Rd;
    var words: seq<Word> := [];
    bad := 0;
    for j := 0 to 10
      invariant |words| == j && forall k :: 0 <= k < j ==> words[k] == Rd(p, 16 + 40 * i + 4 * k) && InBounds(words[k])
    {
      var w := Rd(p, 16 + 40 * i + 4 * j);
      WordFits(p, 16 + 40 * i + 4 * j);
      if !InBounds(w) {
        return None, j;
      }
      words := words + [w];
    }
    v := Some(words);
  }

  method ReadVertices(p: Bytes, vc: nat, slots: nat) returns (vertices: Option<seq<seq<Word>>>)
    requires 16 + 40 * vc <= |p| && vc == Rd(p, 4)
    ensures vertices.Some? ==> |vertices.value| == vc
    ensures vertices.Some? ==> forall i :: 0 <= i < vc ==>
      VertexSays(p, i, vertices.value[i]) && VertexFits(vertices.value[i])
    ensures vertices.None? ==> NoMesh(p, slots)
  {
    hide NoMesh, VertexSays, VertexFits, Rd;
    var all: seq<seq<Word>> := [];
    for i := 0 to vc
      invariant |all| == i && forall k :: 0 <= k < i ==> VertexSays(p, k, all[k]) && VertexFits(all[k])
    {
      var v, bad := ReadVertex(p, i);
      if v.None? {
        BadVertex(p, slots, i, bad);
        return None;
      }
      all := all + [v.value];
    }
    vertices := Some(all);
  }

  method ReadIndices(p: Bytes, vc: nat, ic: nat, slots: nat) returns (indices: Option<seq<nat>>)
    requires 16 + 40 * vc + 4 * ic <= |p| && vc == Rd(p, 4) && ic == Rd(p, 8)
    ensures indices.Some? ==> |indices.value| == ic
    ensures indices.Some? ==> forall i :: 0 <= i < ic ==> indices.value[i] == Rd(p, 16 + 40 * vc + 4 * i) < vc
    ensures indices.None? ==> NoMesh(p, slots)
  {
    hide NoMesh, Rd;
    var all: seq<nat> := [];
    for i := 0 to ic
      invariant |all| == i && forall k :: 0 <= k < i ==> all[k] == Rd(p, 16 + 40 * vc + 4 * k) < vc
    {
      var v := Rd(p, 16 + 40 * vc + 4 * i);
      if v >= vc {
        BadIndex(p, slots, i);
        return None;
      }
      all := all + [v];
    }
    indices := Some(all);
  }

  method ReadGroups(p: Bytes, at: nat, ic: nat, gc: nat, slots: nat) returns (groups: Option<seq<Group>>)
    requires |p| >= 16 && ic == Rd(p, 8) && gc == Rd(p, 12) > 0 && at == 16 + 40 * Rd(p, 4) + 4 * ic &&
      at + 12 * gc <= |p|
    ensures groups.Some? ==>
      |groups.value| == gc && GroupsRead(p, at, groups.value) &&
      GroupStart(groups.value, gc) == ic
    ensures groups.Some? ==> forall i :: 0 <= i < gc ==> GroupFits(groups.value, i, ic, slots)
    ensures groups.None? ==> NoMesh(p, slots)
  {
    hide NoMesh, Rd;
    var all: seq<Group> := [];
    var end := 0;
    for i := 0 to gc
      invariant |all| == i && GroupsRead(p, at, all) && end == GroupStart(all, i) <= ic
      invariant forall k :: 0 <= k < i ==> GroupFits(all, k, ic, slots)
    {
      var g := GroupSaid(p, at + 12 * i);
      ghost var read := all + [g];
      assert GroupsRead(p, at, read) && GroupStart(read, i) == end;
      if g.first != end || g.count == 0 || g.count % 3 != 0 || g.count > ic - g.first {
        BadGroup(p, slots, read);
        return None;
      }
      if g.slot >= slots {
        BadGroup(p, slots, read);
        return None;
      }
      forall k | 0 <= k < i ensures GroupFits(read, k, ic, slots) {
        assert GroupFits(all, k, ic, slots) && GroupStart(read, k) == GroupStart(all, k);
      }
      all := all + [g];
      end := g.first + g.count;
    }
    if end != ic {
      ShortGroups(p, slots, all);
      return None;
    }
    groups := Some(all);
  }

  /** The mesh the payload spells, exactly when it spells a valid one. */
  method DecodeMesh(p: Bytes, slots: nat) returns (r: Option<Mesh>)
    ensures r.Some? ==> Says(p, r.value) && ValidMesh(r.value, slots)
    ensures r.None? ==> NoMesh(p, slots)
  {
    hide VertexSays, VertexFits, Rd;
    if |p| < 16 || p[..4] != Magic() {
      return None;
    }
    var vc, ic, gc := Rd(p, 4), Rd(p, 8), Rd(p, 12);
    if vc == 0 || vc > MAX_VERTICES || ic < 3 || ic > MAX_INDICES || ic % 3 != 0 || gc == 0 || gc > MAX_GROUPS {
      return None;
    }
    if MeshSize(vc, ic, gc) != |p| {
      return None;
    }
    var vertices := ReadVertices(p, vc, slots);
    if vertices.None? {
      return None;
    }
    var indices := ReadIndices(p, vc, ic, slots);
    if indices.None? {
      return None;
    }
    var groups := ReadGroups(p, 16 + 40 * vc + 4 * ic, ic, gc, slots);
    if groups.None? {
      return None;
    }
    r := Some(Mesh(vertices.value, indices.value, groups.value));
  }

  /** A payload spells one mesh at most. */
  lemma SaysOne(p: Bytes, m: Mesh, m': Mesh)
    requires Says(p, m) && Says(p, m')
    ensures m == m'
  {
    forall i | 0 <= i < |m.vertices| ensures m.vertices[i] == m'.vertices[i] {
      assert VertexSays(p, i, m.vertices[i]) && VertexSays(p, i, m'.vertices[i]);
    }
    assert m.vertices == m'.vertices && m.indices == m'.indices && m.groups == m'.groups;
  }

  // ----- each resource's member

  function Sample(p: Bytes, i: nat): int
    requires 2 * i + 1 < |p|
  {
    Int16(p[2 * i], p[2 * i + 1])
  }

  ghost predicate DecodesTo(shape: Shape, p: Bytes, d: Decoded) {
    match shape
    case Image(w, h) => |p| == w * h * 4 && d == Pixels(p)
    case Clip(frames, channels) =>
      |p| == frames * channels * 2 && d.Samples? && |d.values| == |p| / 2 && forall i :: 0 <= i < |d.values| ==>
        d.values[i] == Sample(p, i)
    case Model(slots) => d.Triangles? && Says(p, d.mesh) && ValidMesh(d.mesh, slots)
  }

  method Decode(shape: Shape, p: Bytes) returns (d: Option<Decoded>)
    ensures d.Some? ==> DecodesTo(shape, p, d.value)
    ensures d.None? ==> Undecodable(shape, p)
  {
    hide Says, ValidMesh;
    match shape {
      case Image(w, h) =>
        var need := w * h * 4;
        d := if need != |p| then None else Some(Pixels(p));
      case Clip(frames, channels) =>
        var need := frames * channels * 2;
        if need != |p| {
          return None;
        }
        var values: seq<int> := [];
        for s := 0 to |p| / 2
          invariant |values| == s && forall i :: 0 <= i < s ==> values[i] == Sample(p, i)
        {
          values := values + [Sample(p, s)];
        }
        d := Some(Samples(values));
      case Model(slots) =>
        var mesh := DecodeMesh(p, slots);
        d := if mesh.None? then None else Some(Triangles(mesh.value));
    }
  }

  // ----- the payload

  /** Canonical: paths ascending, sizes in range. */
  ghost predicate Canonical(members: seq<Member>) {
    && (forall i, k :: 0 <= i < k < |members| ==> Less(members[i].path, members[k].path))
    && (forall i :: 0 <= i < |members| ==> 0 < members[i].size <= MAX_PAYLOAD)
  }

  /** Where the i-th member starts. */
  function Offset(members: seq<Member>, i: nat): nat
    requires i <= |members|
  {
    if i == 0 then 0 else Offset(members, i - 1) + members[i - 1].size
  }

  lemma {:induction false} OffsetGrows(members: seq<Member>, i: nat, k: nat)
    requires i <= k <= |members|
    ensures Offset(members, i) <= Offset(members, k)
  {
    if i < k {
      OffsetGrows(members, i, k - 1);
    }
  }

  function Slice(members: seq<Member>, payload: Bytes, i: nat): Bytes
    requires i < |members| && Offset(members, |members|) == |payload|
  {
    OffsetGrows(members, i + 1, |members|);
    payload[Offset(members, i)..Offset(members, i + 1)]
  }

  function SlicesTo(members: seq<Member>, payload: Bytes, n: nat): (r: seq<Bytes>)
    requires n <= |members| && Offset(members, |members|) == |payload|
    ensures |r| == n && forall i :: 0 <= i < n ==> r[i] == Slice(members, payload, i)
  {
    seq(n, i requires 0 <= i < n => Slice(members, payload, i))
  }

  /** The slices laid end to end are the payload: consecutive, apart, and covering it. */
  lemma {:induction false} SlicesTile(members: seq<Member>, payload: Bytes, n: nat)
    requires n <= |members| && Offset(members, |members|) == |payload|
    ensures Offset(members, n) <= |payload| && Concat(SlicesTo(members, payload, n)) == payload[..Offset(members, n)]
    ensures n == |members| ==> Concat(SlicesTo(members, payload, n)) == payload
  {
    OffsetGrows(members, n, |members|);
    var slices := SlicesTo(members, payload, n);
    if n > 0 {
      SlicesTile(members, payload, n - 1);
      assert slices[..n - 1] == SlicesTo(members, payload, n - 1);
      OffsetGrows(members, n - 1, n);
    }
  }

  /** place[w] is the member that backs resource w: a bijection. */
  ghost predicate Backs(members: seq<Member>, wants: seq<Want>, place: seq<nat>) {
    && |place| == |wants| && Distinct(place)
    && (forall w :: 0 <= w < |wants| ==> place[w] < |members| && members[place[w]].path == wants[w].path)
    && (forall i: nat :: i < |members| ==> i in place)
  }

  /** Every resource's member is there, no two want the same, and no member is left over. */
  ghost predicate OneToOne(members: seq<Member>, wants: seq<Want>) {
    && (forall w :: 0 <= w < |wants| ==> Has(members, wants[w].path))
    && (forall w, x :: 0 <= w < x < |wants| ==> wants[w].path != wants[x].path)
    && (forall i :: 0 <= i < |members| ==> Wanted(wants, members[i].path))
  }

  ghost predicate Has(members: seq<Member>, path: string) {
    exists i :: 0 <= i < |members| && members[i].path == path
  }

  ghost predicate Wanted(wants: seq<Want>, path: string) {
    exists w :: 0 <= w < |wants| && wants[w].path == path
  }

  /** As many members as resources. */
  lemma BacksCounts(members: seq<Member>, wants: seq<Want>, place: seq<nat>)
    requires Backs(members, wants, place)
    ensures |members| == |wants|
  {
    DistinctFit(place, Upto(|members|));
    DistinctCount(place);
    SubsetSize(Upto(|members|), Elements(place));
  }

  lemma PathsDiffer(members: seq<Member>, i: nat, k: nat)
    requires Canonical(members) && i < |members| && k < |members| && members[i].path == members[k].path
    ensures i == k
  {
    LessTotal(members[i].path, members[k].path);
  }

  /** The members add up to the payload, within the limit. */
  ghost predicate Adds(members: seq<Member>, payload: Bytes) {
    Offset(members, |members|) == |payload| <= MAX_PAYLOAD
  }

  /** What binding gives: where each member starts, which member each resource has, and what it holds. */
  datatype Bound = Bound(at: seq<nat>, place: seq<nat>, decoded: seq<Decoded>)

  ghost predicate BindsTo(members: seq<Member>, wants: seq<Want>, payload: Bytes, b: Bound) {
    && Adds(members, payload)
    && |b.at| == |members| && (forall i :: 0 <= i < |members| ==> b.at[i] == Offset(members, i))
    && Backs(members, wants, b.place) && |b.decoded| == |wants|
    && forall w :: 0 <= w < |wants| ==> DecodesTo(wants[w].shape, Slice(members, payload, b.place[w]), b.decoded[w])
  }

  class Pending {
    const members: seq<Member>
    const wants: seq<Want>
    var at: seq<nat>
    var usedBy: seq<int>
    var place: seq<nat>

    constructor (members: seq<Member>, wants: seq<Want>)
      ensures this.members == members && this.wants == wants && usedBy == seq(|members|, _ => -1)
    {
      this.members, this.wants := members, wants;
      at, place := [], [];
      usedBy := seq(|members|, _ => -1);
    }

    /** Binds the payload, exactly when there is a way to. */
    method Bind(payload: Bytes) returns (r: Option<Bound>)
      requires Canonical(members) && usedBy == seq(|members|, _ => -1)
      modifies this
      ensures r.Some? ==> BindsTo(members, wants, payload, r.value)
      ensures r.None? ==> forall b :: !BindsTo(members, wants, payload, b)
    {
      hide Adds, Backs, OneToOne, Canonical, DecodesTo, Slice, Offset, NoDecoding;
      var fits := LayOut(payload);
      if !fits {
        return None;
      }
      var matched := Match();
      if !matched {
        NoWay(members, wants);
        return None;
      }
      AddsUp(members, payload);
      BackedInRange(members, wants, place);
      OnlyWay(members, wants, place);
      var decoded := DecodeAll(payload);
      if decoded.None? {
        NotDecoded(members, wants, payload, place);
        return None;
      }
      r := Some(Bound(at, place, decoded.value));
    }

    /** Each resource from its member's slice. */
    method DecodeAll(payload: Bytes) returns (r: Option<seq<Decoded>>)
      requires Offset(members, |members|) == |payload| && |at| == |members| && |place| == |wants|
      requires forall i :: 0 <= i < |members| ==> at[i] == Offset(members, i)
      requires forall w :: 0 <= w < |wants| ==> place[w] < |members|
      ensures r.Some? ==> |r.value| == |wants|
      ensures r.Some? ==> forall w :: 0 <= w < |wants| ==>
        DecodesTo(wants[w].shape, Slice(members, payload, place[w]), r.value[w])
      ensures r.None? ==> NoDecoding(members, wants, payload, place)
    {
      hide DecodesTo, Slice, Offset;
      var decoded: seq<Decoded> := [];
      for w := 0 to |wants|
        invariant |decoded| == w
        invariant forall x :: 0 <= x < w ==> DecodesTo(wants[x].shape, Slice(members, payload, place[x]), decoded[x])
      {
        var m := place[w];
        SliceThere(members, payload, m);
        var d := Decode(wants[w].shape, payload[at[m]..at[m] + members[m].size]);
        if d.None? {
          return None;
        }
        decoded := decoded + [d.value];
      }
      r := Some(decoded);
    }

    /** Prefix sums, refused as soon as they pass the limit. */
    method LayOut(payload: Bytes) returns (ok: bool)
      requires Canonical(members)
      modifies this`at
      ensures ok <==> Adds(members, payload)
      ensures ok ==> |at| == |members| && forall i :: 0 <= i < |members| ==> at[i] == Offset(members, i)
    {
      hide Canonical, Offset;
      var sum := 0;
      at := [];
      OffsetNext(members, 0);
      for i := 0 to |members|
        invariant |at| == i && sum == Offset(members, i) <= MAX_PAYLOAD
        invariant forall k :: 0 <= k < i ==> at[k] == Offset(members, k)
      {
        OffsetNext(members, i);
        at := at + [sum];
        sum := sum + members[i].size;
        if sum > MAX_PAYLOAD {
          OffsetGrows(members, i + 1, |members|);
          return false;
        }
      }
      ok := sum == |payload|;
    }

    /** Every descriptor's member: present, unshared, and none unused. */
    method Match() returns (ok: bool)
      requires Canonical(members) && usedBy == seq(|members|, _ => -1)
      modifies this`usedBy, this`place
      ensures ok <==> OneToOne(members, wants)
      ensures ok ==> Backs(members, wants, place)
    {
      hide Canonical;
      place := [];
      for w := 0 to |wants|
        invariant Matching(w)
        invariant forall x :: 0 <= x < w ==> Has(members, wants[x].path)
        invariant forall x, y :: 0 <= x < y < w ==> wants[x].path != wants[y].path
      {
        var m := FindMember(wants[w].path);
        if m == |members| {
          assert !Has(members, wants[w].path);
          return false;
        }
        if usedBy[m] >= 0 {
          assert wants[usedBy[m]].path == wants[w].path;
          return false;
        }
        Unshared(w, m);
        place := place + [m];
        usedBy := usedBy[m := w];
      }
      for i := 0 to |members|
        invariant forall k :: 0 <= k < i ==> usedBy[k] >= 0
      {
        if usedBy[i] < 0 {
          NotWanted(i);
          return false;
        }
      }
      AllMatched();
      ok := true;
    }

    /** usedBy and place are inverse on the first n resources. */
    ghost predicate Matching(n: nat)
      requires n <= |wants|
      reads this
    {
      && |place| == n && |usedBy| == |members|
      && (forall w :: 0 <= w < n ==>
        place[w] < |members| && members[place[w]].path == wants[w].path &&
        usedBy[place[w]] == w)
      && (forall i :: 0 <= i < |members| ==> -1 <= usedBy[i] < n && (usedBy[i] >= 0 ==> place[usedBy[i]] == i))
    }

    lemma Unshared(w: nat, m: nat)
      requires Canonical(members) && w < |wants| && Matching(w) && m < |members| && usedBy[m] < 0 &&
        members[m].path == wants[w].path
      ensures forall x :: 0 <= x < w ==> wants[x].path != wants[w].path
    {
      forall x | 0 <= x < w ensures wants[x].path != wants[w].path {
        if wants[x].path == wants[w].path { PathsDiffer(members, place[x], m); }
      }
    }

    lemma NotWanted(i: nat)
      requires Canonical(members) && Matching(|wants|) && i < |members| && usedBy[i] < 0
      ensures !OneToOne(members, wants)
    {
      forall w | 0 <= w < |wants| ensures wants[w].path != members[i].path {
        if wants[w].path == members[i].path { PathsDiffer(members, place[w], i); }
      }
      assert !Wanted(wants, members[i].path);
    }

    lemma AllMatched()
      requires Matching(|wants|) && forall k :: 0 <= k < |members| ==> usedBy[k] >= 0
      requires forall x :: 0 <= x < |wants| ==> Has(members, wants[x].path)
      requires forall x, y :: 0 <= x < y < |wants| ==> wants[x].path != wants[y].path
      ensures OneToOne(members, wants) && Backs(members, wants, place)
    {
      forall i: nat | i < |members| ensures i in place && Wanted(wants, members[i].path) {
        assert place[usedBy[i]] == i && wants[usedBy[i]].path == members[i].path;
      }
      forall w, x | 0 <= w < x < |wants| ensures place[w] != place[x] {
        assert usedBy[place[w]] == w && usedBy[place[x]] == x;
      }
    }

    method FindMember(path: string) returns (m: nat)
      ensures m <= |members|
      ensures m < |members| ==> members[m].path == path
      ensures m == |members| ==> forall i :: 0 <= i < |members| ==> members[i].path != path
    {
      m := 0;
      while m < |members| && members[m].path != path
        invariant m <= |members| && forall i :: 0 <= i < m ==> members[i].path != path
      {
        m := m + 1;
      }
    }
  }

  lemma OffsetNext(members: seq<Member>, i: nat)
    requires i <= |members|
    ensures Offset(members, 0) == 0 && (i < |members| ==>
      Offset(members, i + 1) == Offset(members, i) + members[i].size)
  {}

  lemma SliceThere(members: seq<Member>, payload: Bytes, i: nat)
    requires i < |members| && Offset(members, |members|) == |payload|
    ensures Offset(members, i) + members[i].size <= |payload|
    ensures payload[Offset(members, i)..Offset(members, i) + members[i].size] == Slice(members, payload, i)
  {
    hide Offset;
    OffsetNext(members, i);
    OffsetGrows(members, i + 1, |members|);
  }

  /** Some resource's member does not decode. */
  ghost predicate NoDecoding(members: seq<Member>, wants: seq<Want>, payload: Bytes, place: seq<nat>)
    requires Offset(members, |members|) == |payload| && |place| == |wants|
    requires forall w :: 0 <= w < |wants| ==> place[w] < |members|
  {
    exists w: nat :: w < |wants| && Undecodable(wants[w].shape, Slice(members, payload, place[w]))
  }

  ghost predicate Undecodable(shape: Shape, p: Bytes) { forall d :: !DecodesTo(shape, p, d) }

  lemma NotDecoded(members: seq<Member>, wants: seq<Want>, payload: Bytes, place: seq<nat>)
    requires Offset(members, |members|) == |payload| && |place| == |wants|
    requires forall w :: 0 <= w < |wants| ==> place[w] < |members|
    requires NoDecoding(members, wants, payload, place)
    requires forall other :: Backs(members, wants, other) ==> other == place
    ensures forall b :: !BindsTo(members, wants, payload, b)
  {
    hide DecodesTo, Slice, Offset, Backs, Adds;
    var w: nat :| w < |wants| && Undecodable(wants[w].shape, Slice(members, payload, place[w]));
    forall b ensures !BindsTo(members, wants, payload, b) {
      if b.place == place && |b.decoded| == |wants| {
        assert !DecodesTo(wants[w].shape, Slice(members, payload, place[w]), b.decoded[w]);
      }
    }
  }

  lemma AddsUp(members: seq<Member>, payload: Bytes)
    requires Adds(members, payload)
    ensures Offset(members, |members|) == |payload|
  {}

  lemma BackedInRange(members: seq<Member>, wants: seq<Want>, place: seq<nat>)
    requires Backs(members, wants, place)
    ensures |place| == |wants| && forall w :: 0 <= w < |wants| ==> place[w] < |members|
  {}

  lemma NoWay(members: seq<Member>, wants: seq<Want>)
    requires Canonical(members) && !OneToOne(members, wants)
    ensures forall place :: !Backs(members, wants, place)
  {
    hide Canonical;
    forall place ensures !Backs(members, wants, place) {
      if Backs(members, wants, place) {
        BackedIsOneToOne(members, wants, place);
      }
    }
  }

  lemma BackedIsOneToOne(members: seq<Member>, wants: seq<Want>, place: seq<nat>)
    requires Canonical(members) && Backs(members, wants, place)
    ensures OneToOne(members, wants)
  {
    hide Canonical;
    forall w, x | 0 <= w < x < |wants| ensures wants[w].path != wants[x].path {
      if wants[w].path == wants[x].path { PathsDiffer(members, place[w], place[x]); }
    }
    forall i: nat | i < |members| ensures Wanted(wants, members[i].path) {
      assert i in place;
      var w :| 0 <= w < |place| && place[w] == i;
      assert wants[w].path == members[i].path;
    }
  }

  /** There is one way to back the resources. */
  lemma OnlyWay(members: seq<Member>, wants: seq<Want>, place: seq<nat>)
    requires Canonical(members) && Backs(members, wants, place)
    ensures forall other :: Backs(members, wants, other) ==> other == place
  {
    hide Canonical;
    forall other | Backs(members, wants, other) ensures other == place {
      forall w | 0 <= w < |wants| ensures other[w] == place[w] {
        PathsDiffer(members, other[w], place[w]);
      }
    }
  }
}
