/** A mesh spelled out as bytes: what the decoder reads back, and the only mesh it can. */
module MeshBytes {
  import opened AssetPayload
  import opened Bits
  import opened LittleEndian
  import opened Seqs

  function WordBytes(v: Word): Bytes { Le(v, 4) }

  type Vertex = v: seq<Word> | |v| == 10 witness seq(10, _ => 0)

  function VertexBytes(v: Vertex): Bytes { Flatten(WordBytes, v) }

  /** A group of the index array, each part a word. */
  type WordGroup = g: Group | g.first < 0x1_0000_0000 && g.count < 0x1_0000_0000 && g.slot < 0x1_0000_0000
    witness Group(0, 0, 0)

  function GroupBytes(g: WordGroup): Bytes { Le(g.first, 4) + Le(g.count, 4) + Le(g.slot, 4) }

  /** "MSH1", the three counts, the vertices, the indices, the groups. */
  function Spelled(vertices: seq<Vertex>, indices: seq<Word>, groups: seq<WordGroup>): Bytes {
    [0x4D, 0x53, 0x48, 0x31] + Le(|vertices|, 4) + Le(|indices|, 4) + Le(|groups|, 4) +
    Flatten(VertexBytes, vertices) + Flatten(WordBytes, indices) + Flatten(GroupBytes, groups)
  }

  lemma Widths()
    ensures forall v: Word :: |WordBytes(v)| == 4
    ensures forall v: Vertex :: |VertexBytes(v)| == 40
    ensures forall g: WordGroup :: |GroupBytes(g)| == 12
  {
    forall v: Vertex ensures |VertexBytes(v)| == 40 {
      FlattenLength(WordBytes, v, 4);
    }
  }

  /** A word that stands somewhere is read there. */
  lemma WordRead(p: Bytes, at: nat, v: Word)
    requires at + 4 <= |p| && p[at..at + 4] == Le(v, 4)
    ensures Rd(p, at) == v
  {
    Sizes();
    GetOfPut(v, 4);
  }

  lemma Sections(h: Bytes, v: Bytes, i: Bytes, g: Bytes)
    requires |h| == 16
    ensures var p := h + v + i + g;
      && p[..16] == h && p[16..16 + |v|] == v && p[16 + |v|..16 + |v| + |i|] == i
      && p[16 + |v| + |i|..16 + |v| + |i| + |g|] == g
  {}

  /** Where the parts of a spelled mesh stand. */
  lemma Parts(vertices: seq<Vertex>, indices: seq<Word>, groups: seq<WordGroup>)
    ensures var p, a := Spelled(vertices, indices, groups), 16 + 40 * |vertices|;
      && |p| == a + 4 * |indices| + 12 * |groups|
      && p[..16] == [0x4D, 0x53, 0x48, 0x31] + Le(|vertices|, 4) + Le(|indices|, 4) + Le(|groups|, 4)
      && p[16..16 + |vertices| * 40] == Flatten(VertexBytes, vertices)
      && p[a..a + |indices| * 4] == Flatten(WordBytes, indices)
      && p[a + 4 * |indices|..a + 4 * |indices| + |groups| * 12] == Flatten(GroupBytes, groups)
  {
    hide Flatten, Le;
    Widths();
    FlattenLength(VertexBytes, vertices, 40);
    FlattenLength(WordBytes, indices, 4);
    FlattenLength(GroupBytes, groups, 12);
    Sections([0x4D, 0x53, 0x48, 0x31] + Le(|vertices|, 4) + Le(|indices|, 4) + Le(|groups|, 4),
             Flatten(VertexBytes, vertices), Flatten(WordBytes, indices), Flatten(GroupBytes, groups));
  }

  lemma CountsRead(vertices: seq<Vertex>, indices: seq<Word>, groups: seq<WordGroup>)
    requires |vertices| < 0x1_0000_0000 && |indices| < 0x1_0000_0000 && |groups| < 0x1_0000_0000
    ensures var p := Spelled(vertices, indices, groups);
      |p| >= 16 && p[..4] == Magic() && Rd(p, 4) == |vertices| && Rd(p, 8) == |indices| && Rd(p, 12) == |groups|
  {
    hide Flatten, Le, Rd;
    var p := Spelled(vertices, indices, groups);
    Parts(vertices, indices, groups);
    var head := p[..16];
    FourWords([0x4D, 0x53, 0x48, 0x31], Le(|vertices|, 4), Le(|indices|, 4), Le(|groups|, 4), []);
    assert head == head + [];
    hide Spelled;
    assert p[..4] == head[..4] && p[4..8] == head[4..8] && p[8..12] == head[8..12] && p[12..16] == head[12..16];
    WordRead(p, 4, |vertices|);
    WordRead(p, 8, |indices|);
    WordRead(p, 12, |groups|);
  }

  lemma VertexRead(vertices: seq<Vertex>, indices: seq<Word>, groups: seq<WordGroup>, i: nat)
    requires i < |vertices|
    ensures var p := Spelled(vertices, indices, groups); 16 + 40 * i + 40 <= |p| && VertexSays(p, i, vertices[i])
  {
    hide Flatten, Le, Rd, Spelled;
    var p := Spelled(vertices, indices, groups);
    Parts(vertices, indices, groups);
    Widths();
    FlattenPieceIn(VertexBytes, vertices, 40, i, p, 16);
    var piece := VertexBytes(vertices[i]);
    forall j | 0 <= j < 10 ensures vertices[i][j] == Rd(p, 16 + 40 * i + 4 * j) {
      FlattenPiece(WordBytes, vertices[i], 4, j);
      Nested(p, 16 + 40 * i, 16 + 40 * i + 40, 4 * j, 4 * j + 4);
      WordRead(p, 16 + 40 * i + 4 * j, vertices[i][j]);
    }
  }

  lemma IndexRead(vertices: seq<Vertex>, indices: seq<Word>, groups: seq<WordGroup>, i: nat)
    requires i < |indices|
    ensures var p, at := Spelled(vertices, indices, groups), 16 + 40 * |vertices| + 4 * i;
      at + 4 <= |p| && Rd(p, at) == indices[i]
  {
    hide Flatten, Le, Rd, Spelled;
    var p := Spelled(vertices, indices, groups);
    Parts(vertices, indices, groups);
    Widths();
    FlattenPieceIn(WordBytes, indices, 4, i, p, 16 + 40 * |vertices|);
    WordRead(p, 16 + 40 * |vertices| + 4 * i, indices[i]);
  }

  lemma GroupRead(vertices: seq<Vertex>, indices: seq<Word>, groups: seq<WordGroup>, i: nat)
    requires i < |groups|
    ensures var p, at := Spelled(vertices, indices, groups), 16 + 40 * |vertices| + 4 * |indices| + 12 * i;
      at + 12 <= |p| && GroupSaid(p, at) == groups[i]
  {
    hide Flatten, Le, Rd, Spelled;
    var p := Spelled(vertices, indices, groups);
    Parts(vertices, indices, groups);
    Widths();
    var at := 16 + 40 * |vertices| + 4 * |indices| + 12 * i;
    FlattenPieceIn(GroupBytes, groups, 12, i, p, 16 + 40 * |vertices| + 4 * |indices|);
    GroupParts(groups[i]);
    Nested(p, at, at + 12, 0, 4);
    Nested(p, at, at + 12, 4, 8);
    Nested(p, at, at + 12, 8, 12);
    WordRead(p, at, groups[i].first);
    WordRead(p, at + 4, groups[i].count);
    WordRead(p, at + 8, groups[i].slot);
  }

  lemma GroupParts(g: WordGroup)
    ensures |GroupBytes(g)| == 12 && GroupBytes(g)[0..4] == Le(g.first, 4)
    ensures GroupBytes(g)[4..8] == Le(g.count, 4) && GroupBytes(g)[8..12] == Le(g.slot, 4)
  {
    hide Le;
  }

  lemma SpelledSaysIt(vertices: seq<Vertex>, indices: seq<Word>, groups: seq<WordGroup>, m: Mesh)
    requires |vertices| < 0x1_0000_0000 && |indices| < 0x1_0000_0000 && |groups| < 0x1_0000_0000
    requires m == Mesh(vertices, indices, groups)
    ensures Says(Spelled(vertices, indices, groups), m)
  {
    hide Rd, VertexSays, Spelled, GroupSaid, Flatten, Le, Magic;
    var p := Spelled(vertices, indices, groups);
    assert |p| == MeshSize(|vertices|, |indices|, |groups|) by {
      Parts(vertices, indices, groups);
    }
    CountsRead(vertices, indices, groups);
    forall i | 0 <= i < |vertices| ensures VertexSays(p, i, m.vertices[i]) {
      VertexRead(vertices, indices, groups, i);
    }
    forall i | 0 <= i < |indices| ensures m.indices[i] == Rd(p, 16 + 40 * |m.vertices| + 4 * i) {
      IndexRead(vertices, indices, groups, i);
    }
    forall i | 0 <= i < |groups|
      ensures m.groups[i] == GroupSaid(p, 16 + 40 * |m.vertices| + 4 * |m.indices| + 12 * i)
    {
      GroupRead(vertices, indices, groups, i);
    }
  }

  /** The bytes of a mesh say that mesh and no other, so the decoder gives it back when it is valid. */
  lemma SpelledSays(vertices: seq<Vertex>, indices: seq<Word>, groups: seq<WordGroup>, m: Mesh)
    requires |vertices| < 0x1_0000_0000 && |indices| < 0x1_0000_0000 && |groups| < 0x1_0000_0000
    requires m == Mesh(vertices, indices, groups)
    ensures Says(Spelled(vertices, indices, groups), m)
    ensures forall m' :: Says(Spelled(vertices, indices, groups), m') ==> m' == m
  {
    hide Says, Spelled;
    var p := Spelled(vertices, indices, groups);
    SpelledSaysIt(vertices, indices, groups, m);
    forall m' | Says(p, m') ensures m' == m {
      SaysOne(p, m, m');
    }
  }
}
