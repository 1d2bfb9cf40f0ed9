/** A package set's assets: every reference a library writes is resolved once, to an index in the combined table
    that later takes the assets over. */
module PackageAssets {
  import opened Finite
  import opened Graphs
  import opened Options
  import opened PackageGraph
  import opened ResourceIds
  import opened Tables

  const MAX_RESOURCES := 2048
  const MAX_PER_LIST := 256

  datatype Texture = Texture(id: string, provider: nat, width: nat, height: nat, pixels: nat)
  /** How a surface is drawn: its draw mode, and for an extended material its two floats, as bit patterns. */
  datatype Look = Look(alpha: bool, extended: bool, emissive: nat, roughness: nat)
  datatype Material = Material(id: string, provider: nat, look: Look, textureRef: string, texture: nat)
  datatype Group = Group(slot: nat, look: Look)
  datatype Skin = Skin(width: nat, height: nat, pixels: nat, tint: nat)
  /** skins: what each slot draws with, borrowed from the texture table once bound. */
  datatype Model = Model(
    id: string, provider: nat, slotRefs: seq<string>, slots: seq<nat>, groups: seq<Group>, skins: seq<Skin>)
  datatype Sound = Sound(id: string, provider: nat, clip: nat)

  /** onUsed: the script declares that it can be used. */
  datatype Script = Script(id: string, onUsed: bool)
  /** A prefab child's references as written, "" for none, and as resolved: combined index + 1 of its model and sound,
      library + 1 and place there of its script. */
  datatype PrefabChild = PrefabChild(
    modelRef: string, soundRef: string, scriptRef: string, model: nat, sound: nat, scriptDep: nat, script: nat)
  /** What a binding does, as far as it plays a sound. */
  datatype Cue = Cue(soundRef: string, sound: nat)
  datatype Prefab = Prefab(id: string, children: seq<PrefabChild>, bindings: seq<seq<Cue>>)

  datatype Content = Content(scripts: seq<Script>, prefabs: seq<Prefab>, textures: seq<Texture>,
    materials: seq<Material>, models: seq<Model>, sounds: seq<Sound>)
  datatype Table = Table(textures: seq<Texture>, materials: seq<Material>, models: seq<Model>, sounds: seq<Sound>)

  type Library = Dep<Content>

  // ----- a library's own lists

  function TextureIds(w: seq<Texture>): (r: seq<string>)
    ensures |r| == |w| && forall i :: 0 <= i < |r| ==> r[i] == w[i].id
  {
    seq(|w|, i requires 0 <= i < |w| => w[i].id)
  }

  function MaterialIds(w: seq<Material>): (r: seq<string>)
    ensures |r| == |w| && forall i :: 0 <= i < |r| ==> r[i] == w[i].id
  {
    seq(|w|, i requires 0 <= i < |w| => w[i].id)
  }

  function ModelIds(w: seq<Model>): (r: seq<string>)
    ensures |r| == |w| && forall i :: 0 <= i < |r| ==> r[i] == w[i].id
  {
    seq(|w|, i requires 0 <= i < |w| => w[i].id)
  }

  function SoundIds(w: seq<Sound>): (r: seq<string>)
    ensures |r| == |w| && forall i :: 0 <= i < |r| ==> r[i] == w[i].id
  {
    seq(|w|, i requires 0 <= i < |w| => w[i].id)
  }

  function ScriptIds(w: seq<Script>): (r: seq<string>)
    ensures |r| == |w| && forall i :: 0 <= i < |r| ==> r[i] == w[i].id
  {
    seq(|w|, i requires 0 <= i < |w| => w[i].id)
  }

  function PrefabIds(w: seq<Prefab>): (r: seq<string>)
    ensures |r| == |w| && forall i :: 0 <= i < |r| ==> r[i] == w[i].id
  {
    seq(|w|, i requires 0 <= i < |w| => w[i].id)
  }

  predicate IsAsset(kind: Kind) { kind.Texture? || kind.Material? || kind.Model? || kind.Sound? }

  /** The IDs a library has of a kind, in order. */
  function Ids(c: Content, kind: Kind): seq<string> {
    match kind
    case Script => ScriptIds(c.scripts)
    case Prefab => PrefabIds(c.prefabs)
    case Texture => TextureIds(c.textures)
    case Material => MaterialIds(c.materials)
    case Model => ModelIds(c.models)
    case Sound => SoundIds(c.sounds)
    case _ => []
  }

  /** Each list's IDs in its order, and nothing under the other kinds. */
  lemma IdsListed(c: Content, kind: Kind)
    ensures |Ids(c, Kind.Script)| == |c.scripts| && forall i :: 0 <= i < |c.scripts| ==>
      Ids(c, Kind.Script)[i] == c.scripts[i].id
    ensures |Ids(c, Kind.Prefab)| == |c.prefabs| && forall i :: 0 <= i < |c.prefabs| ==>
      Ids(c, Kind.Prefab)[i] == c.prefabs[i].id
    ensures |Ids(c, Kind.Texture)| == |c.textures| && forall i :: 0 <= i < |c.textures| ==>
      Ids(c, Kind.Texture)[i] == c.textures[i].id
    ensures |Ids(c, Kind.Material)| == |c.materials| && forall i :: 0 <= i < |c.materials| ==>
      Ids(c, Kind.Material)[i] == c.materials[i].id
    ensures |Ids(c, Kind.Model)| == |c.models| && forall i :: 0 <= i < |c.models| ==>
      Ids(c, Kind.Model)[i] == c.models[i].id
    ensures |Ids(c, Kind.Sound)| == |c.sounds| && forall i :: 0 <= i < |c.sounds| ==>
      Ids(c, Kind.Sound)[i] == c.sounds[i].id
    ensures Ids(c, kind) != [] ==> kind.Script? || kind.Prefab? || IsAsset(kind)
  {}

  method FindId(ids: seq<string>, id: string) returns (at: Option<nat>)
    ensures at == PlaceOf(ids, id)
  {
    for i := 0 to |ids|
      invariant id !in ids[..i]
    {
      if ids[i] == id {
        FirstPlace(ids, id, i);
        return Some(i);
      }
    }
    assert ids[..|ids|] == ids;
    NoPlace(ids, id);
    at := None;
  }

  function PlaceOf(ids: seq<string>, id: string): (at: Option<nat>)
    ensures at.Some? <==> id in ids
    ensures at.Some? ==> at.value < |ids| && ids[at.value] == id
  {
    if ids == [] then None
    else if ids[0] == id then Some(0)
    else match PlaceOf(ids[1..], id) case None => None case Some(i) => Some(i + 1)
  }

  lemma {:induction false} FirstPlace(ids: seq<string>, id: string, i: nat)
    requires i < |ids| && ids[i] == id && id !in ids[..i]
    ensures PlaceOf(ids, id) == Some(i)
  {
    if i > 0 {
      assert ids[..i][0] == ids[0];
      assert ids[1..][..i - 1] == ids[..i][1..];
      FirstPlace(ids[1..], id, i - 1);
    }
  }

  lemma NoPlace(ids: seq<string>, id: string)
    requires id !in ids
    ensures PlaceOf(ids, id) == None
  {}

  // ----- the combined table's order

  function IdParts(deps: seq<Library>, kind: Kind): (r: seq<seq<string>>)
    ensures |r| == |deps| && forall k :: 0 <= k < |r| ==> r[k] == Ids(deps[k].content, kind)
  {
    seq(|deps|, k requires 0 <= k < |deps| => Ids(deps[k].content, kind))
  }

  function TextureParts(deps: seq<Library>): (r: seq<seq<Texture>>)
    ensures |r| == |deps| && forall k :: 0 <= k < |r| ==> r[k] == deps[k].content.textures
  {
    seq(|deps|, k requires 0 <= k < |deps| => deps[k].content.textures)
  }

  function MaterialParts(deps: seq<Library>): (r: seq<seq<Material>>)
    ensures |r| == |deps| && forall k :: 0 <= k < |r| ==> r[k] == deps[k].content.materials
  {
    seq(|deps|, k requires 0 <= k < |deps| => deps[k].content.materials)
  }

  function ModelParts(deps: seq<Library>): (r: seq<seq<Model>>)
    ensures |r| == |deps| && forall k :: 0 <= k < |r| ==> r[k] == deps[k].content.models
  {
    seq(|deps|, k requires 0 <= k < |deps| => deps[k].content.models)
  }

  function SoundParts(deps: seq<Library>): (r: seq<seq<Sound>>)
    ensures |r| == |deps| && forall k :: 0 <= k < |r| ==> r[k] == deps[k].content.sounds
  {
    seq(|deps|, k requires 0 <= k < |deps| => deps[k].content.sounds)
  }

  /** Index n of the combined table of a kind names the resource. */
  ghost predicate NamesIt(deps: seq<Library>, kind: Kind, n: nat, id: string) {
    n < |Concat(IdParts(deps, kind))| && Concat(IdParts(deps, kind))[n] == id
  }

  method AssetBase(deps: seq<Library>, k: nat, kind: Kind) returns (base: nat)
    requires k <= |deps|
    ensures base == Start(IdParts(deps, kind), k)
  {
    hide Ids, IdParts;
    base := 0;
    for j := 0 to k
      invariant base == Start(IdParts(deps, kind), j)
    {
      base := base + |Ids(deps[j].content, kind)|;
    }
  }

  function EntryAt(deps: seq<Library>, k: nat, p: Rid): Option<nat>
    requires k < |deps|
  {
    var at := PlaceOf(Ids(deps[k].content, p.kind), p.id);
    if IsAsset(p.kind) && at.Some? then Some(Start(IdParts(deps, p.kind), k) + at.value) else at
  }

  method EntryIndex(deps: seq<Library>, k: nat, p: Rid) returns (at: Option<nat>)
    requires k < |deps|
    ensures at == EntryAt(deps, k, p)
  {
    hide Ids, PlaceOf, Start, IdParts, IsAsset;
    at := FindId(Ids(deps[k].content, p.kind), p.id);
    if IsAsset(p.kind) && at.Some? {
      var base := AssetBase(deps, k, p.kind);
      at := Some(base + at.value);
    }
  }

  // ----- what a loaded library is

  ghost predicate HasKind(id: string, kind: Kind) {
    |id| <= ID_MAX && Supported(kind) && exists ns, n :: Reads(id, ns, KindName(kind), n)
  }

  /** The library offers exactly what it has, each ID of the kind it spells. */
  ghost predicate Consistent(d: Library) {
    && (forall i :: 0 <= i < |d.decl.offers| ==> OfferHeld(d, d.decl.offers[i]))
    && (forall kind :: |Ids(d.content, kind)| <= MAX_PER_LIST)
    && (forall kind, i :: 0 <= i < |Ids(d.content, kind)| ==> Offers(d.decl, Ids(d.content, kind)[i]))
    && (forall i :: 0 <= i < |d.content.models| ==> |d.content.models[i].slots| == |d.content.models[i].slotRefs|)
  }

  ghost predicate OfferHeld(d: Library, p: Rid) {
    HasKind(p.id, p.kind) && p.id in Ids(d.content, p.kind)
  }

  /** Its provides == its scripts, its assets and its prefabs, exactly. */
  method ProvidesExactly(d: Library) returns (ok: bool)
    ensures ok <==>
      && (forall i :: 0 <= i < |d.decl.offers| ==> d.decl.offers[i].id in Ids(d.content, d.decl.offers[i].kind))
      && (forall kind, i :: 0 <= i < |Ids(d.content, kind)| ==> Offers(d.decl, Ids(d.content, kind)[i]))
  {
    hide Offers, PlaceOf, KindName;
    for i := 0 to |d.decl.offers|
      invariant forall j :: 0 <= j < i ==> d.decl.offers[j].id in Ids(d.content, d.decl.offers[j].kind)
    {
      var have := FindId(Ids(d.content, d.decl.offers[i].kind), d.decl.offers[i].id);
      if have.None? {
        return false;
      }
    }
    var kinds := [Kind.Script, Kind.Texture, Kind.Material, Kind.Model, Kind.Sound, Kind.Prefab];
    for k := 0 to |kinds|
      invariant forall m, i :: 0 <= m < k && 0 <= i < |Ids(d.content, kinds[m])| ==>
        Offers(d.decl, Ids(d.content, kinds[m])[i])
    {
      var ids := Ids(d.content, kinds[k]);
      for i := 0 to |ids|
        invariant forall j :: 0 <= j < i ==> Offers(d.decl, ids[j])
      {
        var offered := IsOffered(d.decl, ids[i]);
        if !offered {
          return false;
        }
      }
    }
    forall kind, i | 0 <= i < |Ids(d.content, kind)| ensures Offers(d.decl, Ids(d.content, kind)[i]) {
      assert kinds[0].Script? && kinds[1].Texture? && kinds[2].Material? && kinds[3].Model? && kinds[4].Sound? &&
        kinds[5].Prefab?;
      var m :| 0 <= m < |kinds| && kinds[m] == kind;
    }
    ok := true;
  }

  // ----- typed resolution

  datatype Entry = Entry(id: string, kind: Kind, provider: nat, index: nat)
  datatype Import = Import(id: string, provider: nat)
  /** A field that holds references: the kind it expects, and whether imports may answer. */
  datatype Field = Field(expects: Kind, importable: bool)

  /** What a reference resolves to: the one entry of that ID, of the expected kind, own or imported. */
  ghost predicate Resolves(entries: seq<Entry>, imports: seq<Import>, field: Field, ref: string, e: Entry) {
    && HasKind(ref, field.expects) && e in entries && e.id == ref
    && (e.provider == 0 || (field.importable && Import(ref, e.provider) in imports))
  }

  ghost predicate OneEach(entries: seq<Entry>) {
    forall i, k :: 0 <= i < k < |entries| ==> entries[i].id != entries[k].id
  }

  class ResourceSet {
    var entries: seq<Entry>
    var imports: seq<Import>

    ghost predicate Valid()
      reads `entries
    {
      OneEach(entries) && |entries| <= MAX_RESOURCES
    }

    constructor ()
      ensures Valid() && entries == [] && imports == []
    {
      entries, imports := [], [];
    }

    method Init()
      modifies this
      ensures Valid() && entries == [] && imports == []
    {
      entries, imports := [], [];
    }

    method Find(id: string) returns (e: Option<Entry>)
      ensures e.Some? ==> e.value in entries && e.value.id == id
      ensures e.None? ==> forall i :: 0 <= i < |entries| ==> entries[i].id != id
    {
      for i := 0 to |entries|
        invariant forall j :: 0 <= j < i ==> entries[j].id != id
      {
        if entries[i].id == id {
          return Some(entries[i]);
        }
      }
      e := None;
    }

    /** A duplicate is refused, and so is one too many. */
    method Add(e: Entry) returns (ok: bool)
      requires Valid()
      modifies this`entries
      ensures Valid()
      ensures ok <==>
        |e.id| <= ID_MAX && (forall i :: 0 <= i < |old(entries)| ==> old(entries)[i].id != e.id) &&
        |old(entries)| < MAX_RESOURCES
      ensures entries == if ok then old(entries) + [e] else old(entries)
    {
      if |e.id| > ID_MAX {
        return false;
      }
      var d := Find(e.id);
      if d.Some? || |entries| >= MAX_RESOURCES {
        return false;
      }
      entries := entries + [e];
      ok := true;
    }

    method Resolve(field: Field, ref: string) returns (e: Option<Entry>)
      requires Valid()
      ensures e.Some? ==> Resolves(entries, imports, field, ref, e.value)
      ensures e.None? ==> forall x :: !Resolves(entries, imports, field, ref, x)
    {
      hide HasKind, WellFormed, AsRead, OneEach;
      ValidFits(this);
      var parsed := Parse(ref);
      if !parsed.Good? {
        NotOfKind(ref, parsed, field.expects);
        return None;
      }
      e := Find(ref);
      ParsedKind(ref, parsed, field.expects);
      if parsed.kind != field.expects || e.None? {
        return None;
      }
      OnlyEntry(entries, e.value);
      if e.value.provider == 0 {
        return;
      }
      if !field.importable {
        return None;
      }
      for i := 0 to |imports|
        invariant Import(ref, e.value.provider) !in imports[..i]
      {
        if imports[i].provider == e.value.provider && imports[i].id == ref {
          assert imports[i] == Import(ref, e.value.provider);
          return;
        }
      }
      assert imports[..|imports|] == imports;
      e := None;
    }
  }

  lemma OnlyEntry(entries: seq<Entry>, e: Entry)
    requires OneEach(entries) && e in entries
    ensures forall x :: x in entries && x.id == e.id ==> x == e
  {}

  lemma KindNamesDiffer(a: Kind, b: Kind)
    requires KindName(a) == KindName(b)
    ensures a == b
  {
    assert KindName(a)[0] == KindName(b)[0] && |KindName(a)| == |KindName(b)|;
    assert KindName(a)[2] == KindName(b)[2] && KindName(a)[3] == KindName(b)[3];
  }

  /** The parsed kind is the one the ID spells. */
  lemma ParsedKind(ref: string, r: Parsed, kind: Kind)
    requires r.Good? && WellFormed(ref) && AsRead(ref, r)
    ensures HasKind(ref, kind) <==> r.kind == kind
  {
    hide KindName, Compose, Segment;
    var ns, k, n :| Reads(ref, ns, k, n);
    assert Named(r, k) && KindName(r.kind) == k;
    if HasKind(ref, kind) {
      var ns', n' :| Reads(ref, ns', KindName(kind), n');
      assert Named(r, KindName(kind));
      KindNamesDiffer(r.kind, kind);
    }
  }

  lemma NotOfKind(ref: string, r: Parsed, kind: Kind)
    requires !r.Good? && (r.Malformed? <==> !WellFormed(ref)) && (!r.Malformed? ==> AsRead(ref, r))
    ensures !HasKind(ref, kind)
  {
    hide KindName, Compose, Segment;
    if HasKind(ref, kind) {
      var ns, n :| Reads(ref, ns, KindName(kind), n);
      assert WellFormed(ref);
      assert Named(r, KindName(kind));
      if r.ReservedType? {
        KindNamesDiffer(r.kind, kind);
      }
    }
  }

  // ----- what a library may resolve against

  function EntryOf(deps: seq<Library>, self: int, k: nat, i: nat): Entry
    requires k < |deps| && i < |deps[k].decl.offers|
  {
    var p := deps[k].decl.offers[i];
    Entry(p.id, p.kind, if k == self then 0 else k + 1, match EntryAt(deps, k, p) case Some(at) => at case None => 0)
  }

  function LibraryEntries(deps: seq<Library>, self: int, k: nat): (r: seq<Entry>)
    requires k < |deps|
    ensures |r| == |deps[k].decl.offers| && forall i :: 0 <= i < |r| ==> r[i] == EntryOf(deps, self, k, i)
  {
    seq(|deps[k].decl.offers|, i requires 0 <= i < |deps[k].decl.offers| => EntryOf(deps, self, k, i))
  }

  function EntryParts(deps: seq<Library>, self: int): (r: seq<seq<Entry>>)
    ensures |r| == |deps| && forall k :: 0 <= k < |r| ==> r[k] == LibraryEntries(deps, self, k)
  {
    seq(|deps|, k requires 0 <= k < |deps| => LibraryEntries(deps, self, k))
  }

  /** No resource is offered twice, and there are not too many. */
  ghost predicate FitTogether(deps: seq<Library>) {
    OneEach(Concat(EntryParts(deps, -1))) && |Concat(EntryParts(deps, -1))| <= MAX_RESOURCES
  }

  /** Whose view it is changes only the provider numbers. */
  lemma FitAnyView(deps: seq<Library>, self: int)
    ensures FitTogether(deps) <==>
      OneEach(Concat(EntryParts(deps, self))) &&
      |Concat(EntryParts(deps, self))| <= MAX_RESOURCES
  {
    SameIdsAnyView(deps, self);
  }

  lemma SameIdsAnyView(deps: seq<Library>, self: int)
    ensures |Concat(EntryParts(deps, self))| == |Concat(EntryParts(deps, -1))|
    ensures forall n :: 0 <= n < |Concat(EntryParts(deps, self))| ==>
      Concat(EntryParts(deps, self))[n].id == Concat(EntryParts(deps, -1))[n].id
  {
    var a, b := EntryParts(deps, self), EntryParts(deps, -1);
    hide EntryAt, EntryParts, Concat, Start;
    SameStarts(a, b, |a|);
    ConcatLength(a);
    ConcatLength(b);
    forall n: nat | n < |Concat(a)| ensures Concat(a)[n].id == Concat(b)[n].id {
      var k, i := Locate(a, n);
      SameStarts(a, b, k);
      ConcatAt(b, k, i);
    }
  }

  lemma {:induction false} SameStarts<S, T>(a: seq<seq<S>>, b: seq<seq<T>>, k: nat)
    requires |a| == |b| && k <= |a| && forall j :: 0 <= j < |a| ==> |a[j]| == |b[j]|
    ensures Start(a, k) == Start(b, k)
  {
    if k > 0 {
      SameStarts(a, b, k - 1);
    }
  }

  /** The resource may be taken from provider p: a requirement on that package imports it. */
  ghost predicate MayUse(deps: seq<Library>, needs: seq<Need>, id: string, p: nat) {
    0 < p <= |deps| && exists i :: 0 <= i < |needs| && needs[i].package == deps[p - 1].decl.id && id in needs[i].imports
  }

  ghost predicate Imported(deps: seq<Library>, needs: seq<Need>, imports: seq<Import>) {
    forall x :: x in imports <==> MayUse(deps, needs, x.id, x.provider)
  }

  /** Every package a package requires is loaded, and none requires the root. */
  ghost predicate NeedsLoaded(root: Decl, deps: seq<Library>, needs: seq<Need>) {
    forall i :: 0 <= i < |needs| ==> Target(root, needs[i].package).Lib? && needs[i].package in Names(deps)
  }

  ghost predicate WellLoaded(root: Decl, deps: seq<Library>) {
    && |deps| < MAX_SET && Distinct(Names(deps))
    && (forall k :: 0 <= k < |deps| ==> Consistent(deps[k]) && NeedsLoaded(root, deps, deps[k].decl.needs))
  }

  /** A loaded set is so: a required root would be a cycle. */
  lemma ClosedNeedsLoaded(root: Decl, src: Source<Content>, deps: seq<Library>, k: nat)
    requires Closed(root, src, deps) && k <= |deps|
    ensures NeedsLoaded(root, deps, DeclAt(root, deps, k).needs)
  {
    var succ := Requirements(root, src);
    var needs := DeclAt(root, deps, k).needs;
    forall i | 0 <= i < |needs| ensures Target(root, needs[i].package).Lib? && needs[i].package in Names(deps) {
      RequiredIsReached(root, src, deps, k, i);
      if Target(root, needs[i].package).Root? {
        NobodyRequiresRoot(root, src, deps, k, i);
      }
    }
  }

  lemma NobodyRequiresRoot(root: Decl, src: Source<Content>, deps: seq<Library>, k: nat, i: nat)
    requires Closed(root, src, deps) && k <= |deps| && i < |DeclAt(root, deps, k).needs|
    ensures Target(root, DeclAt(root, deps, k).needs[i].package).Lib?
  {
    hide Requirements, Near, FromSource;
    var succ := Requirements(root, src);
    ReachedAreNamed(root, src, deps, k);
    SuccessorAt(root, src, deps, k, i);
    var n := NodeAt(deps, k);
    var p :| Joins(succ, p, Root, n);
    var t := Target(root, DeclAt(root, deps, k).needs[i].package);
    assert Joins(succ, [Root], Root, Root);
    if t.Root? {
      BackToRoot(succ, p, n);
    }
  }

  lemma BackToRoot(succ: Succ<Node>, p: seq<Node>, n: Node)
    requires Joins(succ, p, Root, n) && Root in succ(n)
    ensures IsCycle(succ, p + [Root]) && (p + [Root])[0] == Root
  {
    PathAppended(succ, p, Root);
  }

  lemma SuccessorAt(root: Decl, src: Source<Content>, deps: seq<Library>, k: nat, i: nat)
    requires k <= |deps| && DeclAt(root, deps, k) == DeclOf(root, src, NodeAt(deps, k)) &&
      i < |DeclAt(root, deps, k).needs|
    ensures Target(root, DeclAt(root, deps, k).needs[i].package) in Requirements(root, src)(NodeAt(deps, k))
  {
    assert Requirements(root, src)(NodeAt(deps, k))[i] == Target(root, DeclAt(root, deps, k).needs[i].package);
  }

  lemma NothingConcat<T>()
    ensures Concat<T>([]) == []
  {}

  lemma ConcatSnoc<T>(parts: seq<seq<T>>, last: seq<T>)
    ensures Concat(parts + [last]) == Concat(parts) + last
  {
    assert (parts + [last])[..|parts + [last]| - 1] == parts;
  }

  lemma ValidFits(rs: ResourceSet)
    requires rs.Valid()
    ensures OneEach(rs.entries) && |rs.entries| <= MAX_RESOURCES
  {}

  lemma IndexFits(root: Decl, deps: seq<Library>, k: nat, i: nat)
    requires WellLoaded(root, deps) && k < |deps| && i < |deps[k].decl.offers|
    ensures var at := EntryAt(deps, k, deps[k].decl.offers[i]); at.Some? && at.value <= 0xFFFF
    ensures |deps[k].decl.offers[i].id| <= ID_MAX
  {
    hide KindName, HasKind, Offers, NeedsLoaded;
    var d, p := deps[k], deps[k].decl.offers[i];
    assert OfferHeld(d, p);
    HeldId(d, p);
    var parts := IdParts(deps, p.kind);
    forall j | 0 <= j < |parts| ensures |parts[j]| <= MAX_PER_LIST {
      assert Consistent(deps[j]);
    }
    StartBounded(parts, k, MAX_PER_LIST);
    assert |Ids(d.content, p.kind)| <= MAX_PER_LIST;
  }

  lemma HeldId(d: Library, p: Rid)
    requires OfferHeld(d, p)
    ensures |p.id| <= ID_MAX && p.id in Ids(d.content, p.kind)
  {}

  /** One more entry keeps to the order. */
  lemma AddedPrefix(parts: seq<seq<Entry>>, k: nat, i: nat, e: Entry)
    requires k < |parts| && i < |parts[k]| && parts[k][i] == e
    ensures Concat(parts[..k]) + parts[k][..i] + [e] == Concat(parts[..k]) + parts[k][..i + 1]
    ensures Concat(parts[..k]) + parts[k][..i] + [e] <= Concat(parts)
  {
    assert parts[k][..i + 1] == parts[k][..i] + [e];
    ConcatPrefix(parts, k + 1);
    assert parts[..k + 1] == parts[..k] + [parts[k]];
    ConcatSnoc(parts[..k], parts[k]);
  }

  lemma Crowded(all: seq<Entry>, before: seq<Entry>, e: Entry)
    requires before + [e] <= all
    requires |before| >= MAX_RESOURCES || exists i :: 0 <= i < |before| && before[i].id == e.id
    ensures !(OneEach(all) && |all| <= MAX_RESOURCES)
  {
    assert |before + [e]| == |before| + 1 <= |all|;
    assert all[|before|] == (before + [e])[|before|] == e;
    if |before| < MAX_RESOURCES {
      var i :| 0 <= i < |before| && before[i].id == e.id;
      assert all[i] == (before + [e])[i] == before[i];
      assert all[i].id == all[|before|].id;
    }
  }

  /** The imports the requirements declare, each with its package's provider number. */
  method TakeImports(root: Decl, deps: seq<Library>, needs: seq<Need>) returns (imports: seq<Import>)
    requires Distinct(Names(deps)) && NeedsLoaded(root, deps, needs)
    ensures Imported(deps, needs, imports)
  {
    imports := [];
    for i := 0 to |needs|
      invariant forall x :: x in imports <==> MayUse(deps, needs[..i], x.id, x.provider)
    {
      var q := needs[i];
      var p := NodeOf(root, deps, q.package);
      assert Target(root, q.package) == Lib(q.package);
      for j := 0 to |q.imports|
        invariant forall x :: x in imports <==>
          MayUse(deps, needs[..i], x.id, x.provider) || (x.provider == p && x.id in q.imports[..j])
      {
        assert q.imports[..j + 1] == q.imports[..j] + [q.imports[j]];
        imports := imports + [Import(q.imports[j], p)];
      }
      assert q.imports[..|q.imports|] == q.imports;
      OneMoreNeed(deps, needs, i, p);
    }
    assert needs[..|needs|] == needs;
  }

  lemma OneMoreNeed(deps: seq<Library>, needs: seq<Need>, i: nat, p: nat)
    requires i < |needs| && 0 < p <= |deps| && deps[p - 1].decl.id == needs[i].package && Distinct(Names(deps))
    ensures forall id, q: nat :: MayUse(deps, needs[..i + 1], id, q) <==>
      MayUse(deps, needs[..i], id, q) || (q == p && id in needs[i].imports)
  {
    forall id, q: nat ensures MayUse(deps, needs[..i + 1], id, q) <==>
      MayUse(deps, needs[..i], id, q) || (q == p && id in needs[i].imports)
    {
      if MayUse(deps, needs[..i + 1], id, q) {
        var m :| 0 <= m < i + 1 && needs[m].package == deps[q - 1].decl.id && id in needs[m].imports;
        if m < i {
          assert needs[..i][m] == needs[m];
        } else {
          assert Names(deps)[q - 1] == Names(deps)[p - 1];
        }
      }
      if MayUse(deps, needs[..i], id, q) {
        var m :| 0 <= m < i && needs[..i][m].package == deps[q - 1].decl.id && id in needs[..i][m].imports;
        assert needs[..i + 1][m] == needs[m];
      }
      if q == p && id in needs[i].imports {
        assert needs[..i + 1][i] == needs[i];
      }
    }
  }

  /** Adds one library's offers; refused only when they do not fit with those before. */
  method AddOffers(root: Decl, deps: seq<Library>, self: nat, k: nat, rs: ResourceSet) returns (ok: bool)
    requires WellLoaded(root, deps) && k < |deps| && rs.Valid()
    requires rs.entries == Concat(EntryParts(deps, self)[..k])
    modifies rs`entries
    ensures rs.Valid()
    ensures ok ==> rs.entries == Concat(EntryParts(deps, self)[..k]) + EntryParts(deps, self)[k]
    ensures !ok ==>
      !(OneEach(Concat(EntryParts(deps, self))) && |Concat(EntryParts(deps, self))| <= MAX_RESOURCES)
  {
    hide OneEach, Concat, WellLoaded, EntryAt, ResourceSet.Valid;
    ghost var parts := EntryParts(deps, self);
    var d := deps[k];
    assert parts[k][..0] == [];
    for i := 0 to |d.decl.offers|
      invariant rs.Valid() && rs.entries == Concat(parts[..k]) + parts[k][..i]
    {
      var at := EntryIndex(deps, k, d.decl.offers[i]);
      IndexFits(root, deps, k, i);
      if at.None? || at.value > 0xFFFF {
        return false;
      }
      var e := Entry(d.decl.offers[i].id, d.decl.offers[i].kind, if k == self then 0 else k + 1, at.value);
      ghost var before := rs.entries;
      var added := rs.Add(e);
      AddedPrefix(parts, k, i, e);
      if !added {
        Crowded(Concat(parts), before, e);
        return false;
      }
    }
    assert parts[k][..|parts[k]|] == parts[k];
    ok := true;
  }

  /** Adds every library's offers, the viewer's own as provider 0, and the viewer's imports. */
  method SetResourcesFor(root: Decl, deps: seq<Library>, self: nat, rs: ResourceSet) returns (ok: bool)
    requires WellLoaded(root, deps) && self < |deps| && rs.Valid() && rs.entries == []
    modifies rs
    ensures rs.Valid()
    ensures ok <==> FitTogether(deps)
    ensures ok ==> rs.entries == Concat(EntryParts(deps, self)) && Imported(deps, deps[self].decl.needs, rs.imports)
  {
    hide OneEach, Concat, Consistent, NeedsLoaded, EntryAt, MayUse, ResourceSet.Valid, EntryParts, FitTogether;
    FitAnyView(deps, self);
    ghost var parts := EntryParts(deps, self);
    assert parts[..0] == [];
    NothingConcat<Entry>();
    for k := 0 to |deps|
      invariant rs.Valid() && rs.entries == Concat(parts[..k])
    {
      var added := AddOffers(root, deps, self, k, rs);
      if !added {
        return false;
      }
      assert parts[..k + 1] == parts[..k] + [parts[k]];
      ConcatSnoc(parts[..k], parts[k]);
    }
    assert parts[..|deps|] == parts;
    ValidFits(rs);
    var imports := TakeImports(root, deps, deps[self].decl.needs);
    rs.imports := imports;
    ok := true;
  }

  // ----- linking

  /** The reference names a resource of the kind that the library has or imports. */
  ghost predicate Resolvable(deps: seq<Library>, self: nat, kind: Kind, ref: string)
    requires self < |deps|
  {
    && HasKind(ref, kind)
    && exists k: nat ::
      k < |deps| && Offers(deps[k].decl, ref) &&
      (k == self || MayUse(deps, deps[self].decl.needs, ref, k + 1))
  }

  lemma OneKind(id: string, a: Kind, b: Kind)
    requires HasKind(id, a) && HasKind(id, b)
    ensures a == b
  {
    hide KindName, Compose;
    var ns, n :| Reads(id, ns, KindName(a), n);
    var ns', n' :| Reads(id, ns', KindName(b), n');
    SegmentHasNo(ns, NAMESPACE_MAX, ':');
    SegmentHasNo(ns', NAMESPACE_MAX, ':');
    SegmentHasNo(KindName(a), TYPE_MAX, '/');
    SegmentHasNo(KindName(b), TYPE_MAX, '/');
    ReadingUnique(ns, KindName(a), n, ns', KindName(b), n');
    KindNamesDiffer(a, b);
  }

  lemma EntryOrigin(deps: seq<Library>, self: nat, e: Entry) returns (k: nat, i: nat)
    requires e in Concat(EntryParts(deps, self))
    ensures k < |deps| && i < |deps[k].decl.offers| && e == EntryOf(deps, self, k, i)
  {
    hide Concat, EntryOf;
    var parts := EntryParts(deps, self);
    var n: nat :| n < |Concat(parts)| && Concat(parts)[n] == e;
    k, i := Locate(parts, n);
  }

  lemma HeldNames(deps: seq<Library>, k: nat, p: Rid)
    requires k < |deps| && IsAsset(p.kind) && p.id in Ids(deps[k].content, p.kind)
    ensures EntryAt(deps, k, p).Some? && NamesIt(deps, p.kind, EntryAt(deps, k, p).value, p.id)
  {
    hide Concat, Ids;
    ConcatAt(IdParts(deps, p.kind), k, PlaceOf(Ids(deps[k].content, p.kind), p.id).value);
  }

  lemma OfferIsHeld(root: Decl, deps: seq<Library>, k: nat, i: nat)
    requires WellLoaded(root, deps) && k < |deps| && i < |deps[k].decl.offers|
    ensures var p := deps[k].decl.offers[i];
      HasKind(p.id, p.kind) && p.id in Ids(deps[k].content, p.kind) &&
      Offers(deps[k].decl, p.id)
  {
    hide Ids, HasKind;
    assert Consistent(deps[k]);
    assert OfferHeld(deps[k], deps[k].decl.offers[i]);
  }

  /** A resolved entry's index names, in the combined table, the resource written. */
  lemma ResolvedNames(root: Decl, deps: seq<Library>, self: nat, imports: seq<Import>, kind: Kind, ref: string,
    e: Entry)
    requires WellLoaded(root, deps) && self < |deps| && Imported(deps, deps[self].decl.needs, imports) && IsAsset(kind)
    requires Resolves(Concat(EntryParts(deps, self)), imports, Field(kind, true), ref, e)
    ensures NamesIt(deps, kind, e.index, ref) && Resolvable(deps, self, kind, ref)
  {
    hide HasKind, WellLoaded, Concat, MayUse, EntryParts, Ids, EntryAt, NamesIt, Offers;
    var k, i := EntryOrigin(deps, self, e);
    var p := deps[k].decl.offers[i];
    OfferIsHeld(root, deps, k, i);
    OneKind(ref, p.kind, kind);
    HeldNames(deps, k, p);
    assert k != self ==> Import(ref, k + 1) in imports && MayUse(deps, deps[self].decl.needs, ref, k + 1);
  }

  lemma ResolvableResolves(deps: seq<Library>, self: nat, imports: seq<Import>, kind: Kind,
    ref: string) returns (e: Entry)
    requires self < |deps| && Imported(deps, deps[self].decl.needs, imports)
    requires Resolvable(deps, self, kind, ref)
    ensures Resolves(Concat(EntryParts(deps, self)), imports, Field(kind, true), ref, e)
  {
    hide HasKind, Concat, MayUse, EntryAt;
    var k: nat :| k < |deps| && Offers(deps[k].decl, ref) &&
      (k == self || MayUse(deps, deps[self].decl.needs, ref, k + 1));
    var i :| 0 <= i < |deps[k].decl.offers| && deps[k].decl.offers[i].id == ref;
    e := EntryOf(deps, self, k, i);
    EntryIsThere(deps, self, k, i);
    assert k != self ==> Import(ref, k + 1) in imports by {
      var x := Import(ref, k + 1);
      assert k != self ==> MayUse(deps, deps[self].decl.needs, x.id, x.provider);
    }
  }

  lemma EntryIsThere(deps: seq<Library>, self: nat, k: nat, i: nat)
    requires k < |deps| && i < |deps[k].decl.offers|
    ensures EntryOf(deps, self, k, i) in Concat(EntryParts(deps, self))
  {
    hide Concat, EntryOf;
    ConcatAt(EntryParts(deps, self), k, i);
  }

  method ResolveIndex(root: Decl, deps: seq<Library>, self: nat, rs: ResourceSet, kind: Kind,
    ref: string) returns (at: Option<nat>)
    requires WellLoaded(root, deps) && self < |deps| && IsAsset(kind) && rs.Valid()
    requires rs.entries == Concat(EntryParts(deps, self)) && Imported(deps, deps[self].decl.needs, rs.imports)
    ensures at.Some? <==> Resolvable(deps, self, kind, ref)
    ensures at.Some? ==> NamesIt(deps, kind, at.value, ref)
  {
    hide *;
    var e := rs.Resolve(Field(kind, true), ref);
    if e.None? {
      if Resolvable(deps, self, kind, ref) {
        var x := ResolvableResolves(deps, self, rs.imports, kind, ref);
      }
      return None;
    }
    ResolvedNames(root, deps, self, rs.imports, kind, ref, e.value);
    at := Some(e.value.index);
  }

  ghost predicate RefsResolve(deps: seq<Library>, k: nat)
    requires k < |deps|
  {
    var c := deps[k].content;
    && (forall i :: 0 <= i < |c.materials| ==> Resolvable(deps, k, Kind.Texture, c.materials[i].textureRef))
    && (forall i, s :: 0 <= i < |c.models| && 0 <= s < |c.models[i].slotRefs| ==>
      Resolvable(deps, k, Kind.Material, c.models[i].slotRefs[s]))
  }

  /** Every index a library holds names the resource whose ID it wrote. */
  ghost predicate LibraryLinked(deps: seq<Library>, c: Content) {
    && (forall i :: 0 <= i < |c.materials| ==>
      NamesIt(deps, Kind.Texture, c.materials[i].texture, c.materials[i].textureRef))
    && (forall i :: 0 <= i < |c.models| ==> ModelLinked(deps, c.models[i]))
  }

  ghost predicate ModelLinked(deps: seq<Library>, m: Model) {
    |m.slots| == |m.slotRefs| && forall s :: 0 <= s < |m.slots| ==>
      NamesIt(deps, Kind.Material, m.slots[s], m.slotRefs[s])
  }

  ghost predicate Linked(deps: seq<Library>) {
    forall k :: 0 <= k < |deps| ==> LibraryLinked(deps, deps[k].content)
  }

  predicate SameChild(ch: PrefabChild, ch': PrefabChild) {
    ch' == ch.(model := ch'.model, sound := ch'.sound, scriptDep := ch'.scriptDep, script := ch'.script)
  }

  predicate SameCues(cues: seq<Cue>, cues': seq<Cue>) {
    |cues'| == |cues| && forall a :: 0 <= a < |cues| ==> cues'[a].soundRef == cues[a].soundRef
  }

  predicate SamePrefab(p: Prefab, p': Prefab) {
    && p'.id == p.id && |p'.children| == |p.children| && |p'.bindings| == |p.bindings|
    && (forall c :: 0 <= c < |p.children| ==> SameChild(p.children[c], p'.children[c]))
    && (forall b :: 0 <= b < |p.bindings| ==> SameCues(p.bindings[b], p'.bindings[b]))
  }

  predicate SamePrefabs(w: seq<Prefab>, w': seq<Prefab>) {
    |w'| == |w| && forall i :: 0 <= i < |w| ==> SamePrefab(w[i], w'[i])
  }

  lemma SamePrefabsItself(w: seq<Prefab>)
    ensures SamePrefabs(w, w)
  {}

  /** The same but for the indices links fill in. */
  ghost predicate SameButLinks(c: Content, c': Content) {
    && c' == c.(materials := c'.materials, models := c'.models, prefabs := c'.prefabs)
    && SamePrefabs(c.prefabs, c'.prefabs)
    && |c'.materials| == |c.materials| && |c'.models| == |c.models|
    && (forall i :: 0 <= i < |c.materials| ==> c'.materials[i] == c.materials[i].(texture := c'.materials[i].texture))
    && (forall i :: 0 <= i < |c.models| ==>
      c'.models[i] == c.models[i].(slots := c'.models[i].slots) &&
      |c'.models[i].slots| == |c.models[i].slots|)
  }

  method LinkMaterials(root: Decl, deps: seq<Library>, k: nat, rs: ResourceSet)
    returns (ok: bool, materials: seq<Material>)
    requires WellLoaded(root, deps) && k < |deps| && rs.Valid()
    requires rs.entries == Concat(EntryParts(deps, k)) && Imported(deps, deps[k].decl.needs, rs.imports)
    ensures |materials| == |deps[k].content.materials|
    ensures forall i :: 0 <= i < |materials| ==>
      materials[i] == deps[k].content.materials[i].(texture := materials[i].texture)
    ensures ok <==> forall i :: 0 <= i < |materials| ==>
      Resolvable(deps, k, Kind.Texture, deps[k].content.materials[i].textureRef)
    ensures ok ==> forall i :: 0 <= i < |materials| ==>
      NamesIt(deps, Kind.Texture, materials[i].texture, materials[i].textureRef)
  {
    hide WellLoaded, Imported, Resolvable, NamesIt, Concat, EntryParts;
    ghost var was := deps[k].content.materials;
    materials := deps[k].content.materials;
    for i := 0 to |materials|
      invariant |materials| == |was|
      invariant forall j :: 0 <= j < |materials| ==> materials[j] == was[j].(texture := materials[j].texture)
      invariant forall j :: 0 <= j < i ==> NamesIt(deps, Kind.Texture, materials[j].texture, materials[j].textureRef)
      invariant forall j :: 0 <= j < i ==> Resolvable(deps, k, Kind.Texture, was[j].textureRef)
    {
      var at := ResolveIndex(root, deps, k, rs, Kind.Texture, materials[i].textureRef);
      if at.None? {
        return false, materials;
      }
      materials := materials[i := materials[i].(texture := at.value)];
    }
    ok := true;
  }

  method LinkLibrary(root: Decl, deps: seq<Library>, k: nat, rs: ResourceSet) returns (ok: bool, c: Content)
    requires WellLoaded(root, deps) && k < |deps| && rs.Valid()
    requires rs.entries == Concat(EntryParts(deps, k)) && Imported(deps, deps[k].decl.needs, rs.imports)
    ensures SameButLinks(deps[k].content, c)
    ensures ok <==> RefsResolve(deps, k)
    ensures ok ==> LibraryLinked(deps, c)
  {
    hide WellLoaded, Imported, Resolvable, NamesIt, Concat, EntryParts, SamePrefabs;
    c := deps[k].content;
    SamePrefabsItself(c.prefabs);
    SlotsMatch(root, deps, k);
    var found, materials := LinkMaterials(root, deps, k, rs);
    c := c.(materials := materials);
    if !found {
      return false, c;
    }
    for i := 0 to |c.models|
      invariant SameButLinks(deps[k].content, c) && c.prefabs == deps[k].content.prefabs
      invariant forall j :: 0 <= j < |c.materials| ==>
        NamesIt(deps, Kind.Texture, c.materials[j].texture, c.materials[j].textureRef)
      invariant forall j :: 0 <= j < i ==> ModelLinked(deps, c.models[j])
      invariant forall j, s :: 0 <= j < i && 0 <= s < |deps[k].content.models[j].slotRefs| ==>
        Resolvable(deps, k, Kind.Material, deps[k].content.models[j].slotRefs[s])
    {
      var good, m := LinkModel(root, deps, k, rs, c.models[i]);
      c := c.(models := c.models[i := m]);
      if !good {
        return false, c;
      }
    }
    ok := true;
  }

  lemma SlotsMatch(root: Decl, deps: seq<Library>, k: nat)
    requires WellLoaded(root, deps) && k < |deps|
    ensures forall i :: 0 <= i < |deps[k].content.models| ==>
      |deps[k].content.models[i].slots| == |deps[k].content.models[i].slotRefs|
  {
    assert Consistent(deps[k]);
  }

  method LinkModel(root: Decl, deps: seq<Library>, k: nat, rs: ResourceSet, m0: Model) returns (ok: bool, m: Model)
    requires WellLoaded(root, deps) && k < |deps| && rs.Valid() && |m0.slots| == |m0.slotRefs|
    requires rs.entries == Concat(EntryParts(deps, k)) && Imported(deps, deps[k].decl.needs, rs.imports)
    ensures m == m0.(slots := m.slots) && |m.slots| == |m0.slots|
    ensures ok <==> forall s :: 0 <= s < |m0.slotRefs| ==> Resolvable(deps, k, Kind.Material, m0.slotRefs[s])
    ensures ok ==> ModelLinked(deps, m)
  {
    hide WellLoaded, Imported, Resolvable, NamesIt, Concat, EntryParts;
    m := m0;
    for s := 0 to |m.slots|
      invariant m == m0.(slots := m.slots) && |m.slots| == |m0.slots|
      invariant forall j :: 0 <= j < s ==> NamesIt(deps, Kind.Material, m.slots[j], m.slotRefs[j])
      invariant forall j :: 0 <= j < s ==> Resolvable(deps, k, Kind.Material, m0.slotRefs[j])
    {
      var at := ResolveIndex(root, deps, k, rs, Kind.Material, m.slotRefs[s]);
      if at.None? {
        return false, m;
      }
      m := m.(slots := m.slots[s := at.value]);
    }
    ok := true;
  }

  // ----- the whole set

  ghost predicate SameSet(deps: seq<Library>, deps': seq<Library>) {
    |deps| == |deps'| && forall k :: 0 <= k < |deps| ==> SameLibrary(deps[k], deps'[k])
  }

  ghost predicate SameLibrary(d: Library, d': Library) {
    d' == d.(content := d'.content) && SameButLinks(d.content, d'.content)
  }

  lemma SameIds(c: Content, c': Content, kind: Kind)
    requires SameButLinks(c, c')
    ensures Ids(c', kind) == Ids(c, kind)
  {}

  lemma SameParts(deps: seq<Library>, deps': seq<Library>, kind: Kind)
    requires SameSet(deps, deps')
    ensures IdParts(deps', kind) == IdParts(deps, kind)
  {
    hide SameButLinks, Ids;
    forall k | 0 <= k < |deps| ensures IdParts(deps', kind)[k] == IdParts(deps, kind)[k] {
      assert SameLibrary(deps[k], deps'[k]);
      SameIds(deps[k].content, deps'[k].content, kind);
    }
  }

  lemma SameNames(deps: seq<Library>, deps': seq<Library>)
    requires SameSet(deps, deps')
    ensures Names(deps') == Names(deps)
  {
    forall k | 0 <= k < |deps| ensures deps'[k].decl == deps[k].decl {
      assert SameLibrary(deps[k], deps'[k]);
    }
  }

  lemma SameWellLoaded(root: Decl, deps: seq<Library>, deps': seq<Library>)
    requires WellLoaded(root, deps) && SameSet(deps, deps')
    ensures WellLoaded(root, deps')
  {
    hide SameButLinks, HasKind, Offers, Ids, Consistent;
    SameNames(deps, deps');
    forall k | 0 <= k < |deps'| ensures Consistent(deps'[k]) && NeedsLoaded(root, deps', deps'[k].decl.needs) {
      assert SameLibrary(deps[k], deps'[k]);
      SameConsistent(deps[k], deps'[k]);
    }
  }

  lemma SameConsistent(d: Library, d': Library)
    requires Consistent(d) && SameLibrary(d, d')
    ensures Consistent(d')
  {
    hide HasKind, Offers, Ids;
    forall kind ensures Ids(d'.content, kind) == Ids(d.content, kind) {
      SameIds(d.content, d'.content, kind);
    }
    forall i | 0 <= i < |d.decl.offers| ensures OfferHeld(d', d'.decl.offers[i]) {
      assert OfferHeld(d, d.decl.offers[i]);
    }
  }

  lemma SameFit(deps: seq<Library>, deps': seq<Library>)
    requires SameSet(deps, deps')
    ensures FitTogether(deps') <==> FitTogether(deps)
  {
    hide SameButLinks, Concat, Ids, PlaceOf;
    var a, b := EntryParts(deps, -1), EntryParts(deps', -1);
    forall k | 0 <= k < |a| ensures b[k] == a[k] {
      assert SameLibrary(deps[k], deps'[k]);
      forall i | 0 <= i < |a[k]| ensures b[k][i] == a[k][i] {
        var p := deps[k].decl.offers[i];
        SameIds(deps[k].content, deps'[k].content, p.kind);
        SameParts(deps, deps', p.kind);
        assert EntryAt(deps', k, p) == EntryAt(deps, k, p);
      }
    }
    assert a == b;
  }

  lemma SameResolvable(deps: seq<Library>, deps': seq<Library>, k: nat)
    requires SameSet(deps, deps') && k < |deps|
    ensures RefsResolve(deps', k) <==> RefsResolve(deps, k)
  {
    hide HasKind, Offers;
    forall kind, ref ensures Resolvable(deps', k, kind, ref) <==> Resolvable(deps, k, kind, ref) {
      SameUse(deps, deps', k, ref);
    }
    assert SameLibrary(deps[k], deps'[k]);
  }

  lemma SameUse(deps: seq<Library>, deps': seq<Library>, k: nat, ref: string)
    requires SameSet(deps, deps') && k < |deps|
    ensures forall j: nat :: j < |deps| ==> (Offers(deps'[j].decl, ref) <==> Offers(deps[j].decl, ref))
    ensures forall j: nat :: MayUse(deps', deps'[k].decl.needs, ref, j) <==> MayUse(deps, deps[k].decl.needs, ref, j)
  {
    hide Offers, SameButLinks;
    forall j | 0 <= j < |deps| ensures deps'[j].decl == deps[j].decl {
      assert SameLibrary(deps[j], deps'[j]);
    }
  }

  lemma SameLinked(deps: seq<Library>, deps': seq<Library>, c: Content)
    requires SameSet(deps, deps')
    ensures LibraryLinked(deps', c) <==> LibraryLinked(deps, c)
  {
    hide SameSet, Concat, IdParts;
    SameParts(deps, deps', Kind.Texture);
    SameParts(deps, deps', Kind.Material);
  }

  lemma SameSetStep(deps: seq<Library>, now: seq<Library>, k: nat, c: Content)
    requires SameSet(deps, now) && k < |now| && SameButLinks(now[k].content, c)
    ensures SameSet(deps, now[k := now[k].(content := c)]) && SameSet(now, now[k := now[k].(content := c)])
  {
    hide SameButLinks;
    var next := now[k := now[k].(content := c)];
    forall j | 0 <= j < |deps| ensures SameLibrary(deps[j], next[j]) && SameLibrary(now[j], next[j]) {
      assert SameLibrary(deps[j], now[j]);
      if j == k {
        SameThen(deps[j].content, now[j].content, c);
      } else {
        SameContent(now[j].content);
      }
    }
  }

  lemma SameContent(c: Content)
    ensures SameButLinks(c, c)
  {
    SamePrefabsItself(c.prefabs);
  }

  lemma SameThen(a: Content, b: Content, c: Content)
    requires SameButLinks(a, b) && SameButLinks(b, c)
    ensures SameButLinks(a, c)
  {
    hide SamePrefabs;
    PrefabsThen(a.prefabs, b.prefabs, c.prefabs);
  }

  lemma PrefabsThen(a: seq<Prefab>, b: seq<Prefab>, c: seq<Prefab>)
    requires SamePrefabs(a, b) && SamePrefabs(b, c)
    ensures SamePrefabs(a, c)
  {
    hide SameChild, SameCues;
    forall i | 0 <= i < |a| ensures SamePrefab(a[i], c[i]) {
      assert SamePrefab(a[i], b[i]) && SamePrefab(b[i], c[i]);
      forall k | 0 <= k < |a[i].children| ensures SameChild(a[i].children[k], c[i].children[k]) {
        ChildThen(a[i].children[k], b[i].children[k], c[i].children[k]);
      }
      forall k | 0 <= k < |a[i].bindings| ensures SameCues(a[i].bindings[k], c[i].bindings[k]) {
        CuesThen(a[i].bindings[k], b[i].bindings[k], c[i].bindings[k]);
      }
    }
  }

  lemma ChildThen(a: PrefabChild, b: PrefabChild, c: PrefabChild)
    requires SameChild(a, b) && SameChild(b, c)
    ensures SameChild(a, c)
  {}

  lemma CuesThen(a: seq<Cue>, b: seq<Cue>, c: seq<Cue>)
    requires SameCues(a, b) && SameCues(b, c)
    ensures SameCues(a, c)
  {}

  lemma SameItself(deps: seq<Library>)
    ensures SameSet(deps, deps)
  {}

  predicate HasReferences(d: Library) { |d.content.materials| > 0 || |d.content.models| > 0 }

  ghost predicate Linkable(deps: seq<Library>) {
    (exists k :: 0 <= k < |deps| && HasReferences(deps[k])) ==>
      FitTogether(deps) && forall k: nat :: k < |deps| ==> RefsResolve(deps, k)
  }

  /** Links every library, from its own point of view, and changes nothing else. */
  method LinkAssets(loaded: PackageSet<Content>) returns (ok: bool)
    requires WellLoaded(loaded.root, loaded.deps)
    modifies loaded`deps
    ensures SameSet(old(loaded.deps), loaded.deps)
    ensures ok <==> Linkable(old(loaded.deps))
    ensures ok ==> Linked(loaded.deps)
  {
    hide SameSet, WellLoaded, FitTogether, RefsResolve, LibraryLinked, SameButLinks, Concat, Imported;
    ghost var was := loaded.deps;
    SameItself(was);
    var any := false;
    for k := 0 to |loaded.deps|
      invariant any <==> exists j :: 0 <= j < k && HasReferences(loaded.deps[j])
    {
      any := any || |loaded.deps[k].content.materials| > 0 || |loaded.deps[k].content.models| > 0;
    }
    if !any {
      NothingToLink(loaded.deps);
      return true;
    }
    var rs := new ResourceSet();
    for k := 0 to |loaded.deps|
      invariant SameSet(was, loaded.deps) && WellLoaded(loaded.root, loaded.deps) && |loaded.deps| == |was|
      invariant forall j: nat :: j < k ==> RefsResolve(was, j) && LibraryLinked(loaded.deps, loaded.deps[j].content)
      invariant forall j: nat :: k <= j < |was| ==> loaded.deps[j] == was[j]
      invariant (exists j :: 0 <= j < k && HasReferences(was[j])) ==> FitTogether(was)
    {
      if |loaded.deps[k].content.materials| == 0 && |loaded.deps[k].content.models| == 0 {
        NoReferences(loaded.deps, was, k);
      } else {
        rs.Init();
        var filled := SetResourcesFor(loaded.root, loaded.deps, k, rs);
        SameFit(was, loaded.deps);
        if !filled {
          return false;
        }
        var good, c := LinkLibrary(loaded.root, loaded.deps, k, rs);
        SameResolvable(was, loaded.deps, k);
        LinkStep(loaded.root, was, loaded.deps, k, c, good);
        loaded.deps := loaded.deps[k := loaded.deps[k].(content := c)];
        if !good {
          return false;
        }
      }
    }
    ok := true;
  }

  lemma NothingToLink(deps: seq<Library>)
    requires forall k :: 0 <= k < |deps| ==> !HasReferences(deps[k])
    ensures Linked(deps)
  {}

  lemma NoReferences(deps: seq<Library>, was: seq<Library>, k: nat)
    requires k < |deps| == |was| && deps[k] == was[k] && !HasReferences(deps[k])
    ensures RefsResolve(was, k) && LibraryLinked(deps, deps[k].content)
  {}

  lemma LinkStep(root: Decl, was: seq<Library>, now: seq<Library>, k: nat, c: Content, good: bool)
    requires SameSet(was, now) && WellLoaded(root, now) && k < |now| && SameButLinks(now[k].content, c)
    requires good ==> LibraryLinked(now, c)
    ensures var next := now[k := now[k].(content := c)];
      && SameSet(was, next) && WellLoaded(root, next)
      && (good ==> LibraryLinked(next, c))
      && forall j: nat :: j < k && LibraryLinked(now, now[j].content) ==> LibraryLinked(next, now[j].content)
  {
    hide SameSet, WellLoaded, LibraryLinked, SameButLinks;
    var next := now[k := now[k].(content := c)];
    SameSetStep(was, now, k, c);
    SameWellLoaded(root, now, next);
    SameLinked(now, next, c);
    forall j: nat | j < k && LibraryLinked(now, now[j].content) ensures LibraryLinked(next, now[j].content) {
      SameLinked(now, next, now[j].content);
    }
  }

  // ----- the combined table

  function StampTexture(t: Texture, k: nat): Texture { t.(provider := k) }
  function StampMaterial(m: Material, k: nat): Material { m.(provider := k) }
  function StampModel(m: Model, k: nat): Model { m.(provider := k) }
  function StampSound(s: Sound, k: nat): Sound { s.(provider := k) }

  function TakenTextures(deps: seq<Library>): seq<Texture> { Stamped(TextureParts(deps), StampTexture, |deps|) }
  function TakenMaterials(deps: seq<Library>): seq<Material> { Stamped(MaterialParts(deps), StampMaterial, |deps|) }
  function TakenModels(deps: seq<Library>): seq<Model> { Stamped(ModelParts(deps), StampModel, |deps|) }
  function TakenSounds(deps: seq<Library>): seq<Sound> { Stamped(SoundParts(deps), StampSound, |deps|) }

  /** Every group draws with a slot the model has. */
  ghost predicate GroupsInSlots(m: Model) {
    forall i :: 0 <= i < |m.groups| ==> m.groups[i].slot < |m.slots|
  }

  ghost predicate Bindable(m: Model, materials: seq<Material>, textures: seq<Texture>) {
    forall s :: 0 <= s < |m.slots| ==> m.slots[s] < |materials| && materials[m.slots[s]].texture < |textures|
  }

  const WHITE := 0xFFFFFF

  function SkinOf(t: Texture): Skin { Skin(t.width, t.height, t.pixels, WHITE) }

  /** The model with its slots' pixels borrowed, untinted, and its groups looking as their materials say. */
  ghost predicate Bound(m: Model, m': Model, materials: seq<Material>, textures: seq<Texture>)
    requires Bindable(m, materials, textures) && GroupsInSlots(m)
  {
    && m' == m.(skins := m'.skins, groups := m'.groups)
    && |m'.skins| == |m.slots| && |m'.groups| == |m.groups|
    && (forall s :: 0 <= s < |m.slots| ==> m'.skins[s] == SkinOf(textures[materials[m.slots[s]].texture]))
    && (forall i :: 0 <= i < |m.groups| ==>
      m'.groups[i] ==
      m.groups[i].(look := materials[m.slots[m.groups[i].slot]].look))
  }

  method BindModel(m: Model, materials: seq<Material>, textures: seq<Texture>) returns (ok: bool, r: Model)
    requires GroupsInSlots(m)
    ensures ok <==> Bindable(m, materials, textures)
    ensures ok ==> Bound(m, r, materials, textures)
  {
    r := m.(skins := []);
    for s := 0 to |m.slots|
      invariant r == m.(skins := r.skins) && |r.skins| == s
      invariant forall j :: 0 <= j < s ==> m.slots[j] < |materials| && materials[m.slots[j]].texture < |textures|
                                           && r.skins[j] == SkinOf(textures[materials[m.slots[j]].texture])
    {
      if m.slots[s] >= |materials| || materials[m.slots[s]].texture >= |textures| {
        return false, r;
      }
      r := r.(skins := r.skins + [SkinOf(textures[materials[m.slots[s]].texture])]);
    }
    for i := 0 to |m.groups|
      invariant r == m.(skins := r.skins, groups := r.groups) && |r.groups| == |m.groups| && |r.skins| == |m.slots|
      invariant forall s :: 0 <= s < |m.slots| ==> r.skins[s] == SkinOf(textures[materials[m.slots[s]].texture])
      invariant forall j :: 0 <= j < i ==>
        r.groups[j] ==
        m.groups[j].(look := materials[m.slots[m.groups[j].slot]].look)
      invariant forall j :: i <= j < |m.groups| ==> r.groups[j] == m.groups[j]
    {
      r := r.(groups := r.groups[i := r.groups[i].(look := materials[m.slots[r.groups[i].slot]].look)]);
    }
    ok := true;
  }

  ghost predicate AllInSlots(deps: seq<Library>) {
    forall i :: 0 <= i < |TakenModels(deps)| ==> GroupsInSlots(TakenModels(deps)[i])
  }

  ghost predicate AllBindable(deps: seq<Library>) {
    forall i :: 0 <= i < |TakenModels(deps)| ==>
      Bindable(TakenModels(deps)[i], TakenMaterials(deps), TakenTextures(deps))
  }

  /** The table that takes a set's assets over: all of each kind in order, each model bound. */
  ghost predicate Takes(deps: seq<Library>, out: Table)
    requires AllInSlots(deps) && AllBindable(deps)
  {
    && out.textures == TakenTextures(deps) && out.materials == TakenMaterials(deps) && out.sounds == TakenSounds(deps)
    && |out.models| == |TakenModels(deps)|
    && forall i :: 0 <= i < |out.models| ==> Bound(TakenModels(deps)[i], out.models[i], out.materials, out.textures)
  }

  // ----- what a moved asset keeps

  /** The table holds every library's textures from its base on, each as it was but for its provider, and no others. */
  ghost predicate TexturesMoved(deps: seq<Library>, w: seq<Texture>) {
    && |w| == Start(TextureParts(deps), |deps|)
    && forall k, i :: 0 <= k < |deps| && 0 <= i < |deps[k].content.textures| ==>
         TextureAt(w, Start(TextureParts(deps), k) + i, deps[k].content.textures[i].(provider := k + 1))
  }

  ghost predicate TextureAt(w: seq<Texture>, n: nat, t: Texture) { n < |w| && w[n] == t }

  ghost predicate MaterialsMoved(deps: seq<Library>, w: seq<Material>) {
    && |w| == Start(MaterialParts(deps), |deps|)
    && forall k, i :: 0 <= k < |deps| && 0 <= i < |deps[k].content.materials| ==>
         MaterialAt(w, Start(MaterialParts(deps), k) + i, deps[k].content.materials[i].(provider := k + 1))
  }

  ghost predicate MaterialAt(w: seq<Material>, n: nat, m: Material) { n < |w| && w[n] == m }

  ghost predicate SoundsMoved(deps: seq<Library>, w: seq<Sound>) {
    && |w| == Start(SoundParts(deps), |deps|)
    && forall k, i :: 0 <= k < |deps| && 0 <= i < |deps[k].content.sounds| ==>
         SoundAt(w, Start(SoundParts(deps), k) + i, deps[k].content.sounds[i].(provider := k + 1))
  }

  ghost predicate SoundAt(w: seq<Sound>, n: nat, s: Sound) { n < |w| && w[n] == s }

  /** A model keeps all but its provider, what its slots draw with and how its groups look. */
  ghost predicate ModelsMoved(deps: seq<Library>, out: Table) {
    && |out.models| == Start(ModelParts(deps), |deps|)
    && forall k, i :: 0 <= k < |deps| && 0 <= i < |deps[k].content.models| ==>
         ModelAt(out, Start(ModelParts(deps), k) + i, deps[k].content.models[i].(provider := k + 1))
  }

  ghost predicate ModelAt(out: Table, n: nat, m: Model) {
    && n < |out.models| && out.models[n] == m.(skins := out.models[n].skins, groups := out.models[n].groups)
    && |out.models[n].skins| == |m.slots| && |out.models[n].groups| == |m.groups|
    && (forall s :: 0 <= s < |m.slots| ==> SkinAt(out, m.slots[s], out.models[n].skins[s]))
    && (forall i :: 0 <= i < |m.groups| ==>
      m.groups[i].slot < |m.slots| && LookAt(out, m.slots[m.groups[i].slot], m.groups[i], out.models[n].groups[i]))
  }

  /** The size and pixels of the material's texture, untinted. */
  ghost predicate SkinAt(out: Table, material: nat, skin: Skin) {
    && material < |out.materials| && out.materials[material].texture < |out.textures|
    && var t := out.textures[out.materials[material].texture];
      skin == Skin(t.width, t.height, t.pixels, 0xFFFFFF)
  }

  ghost predicate LookAt(out: Table, material: nat, g: Group, g': Group) {
    material < |out.materials| && g' == g.(look := out.materials[material].look)
  }

  ghost predicate Moved(deps: seq<Library>, out: Table) {
    TexturesMoved(deps, out.textures) && MaterialsMoved(deps, out.materials) && SoundsMoved(deps, out.sounds) &&
    ModelsMoved(deps, out)
  }

  lemma TexturesKept(deps: seq<Library>)
    ensures TexturesMoved(deps, TakenTextures(deps))
  {
    hide Stamped, Start;
    StampedLength(TextureParts(deps), StampTexture, |deps|);
    forall k, i | 0 <= k < |deps| && 0 <= i < |deps[k].content.textures|
      ensures TextureAt(TakenTextures(deps), Start(TextureParts(deps), k) + i,
                        deps[k].content.textures[i].(provider := k + 1))
    {
      StampedAt(TextureParts(deps), StampTexture, |deps|, k, i);
    }
  }

  lemma MaterialsKept(deps: seq<Library>)
    ensures MaterialsMoved(deps, TakenMaterials(deps))
  {
    hide Stamped, Start;
    StampedLength(MaterialParts(deps), StampMaterial, |deps|);
    forall k, i | 0 <= k < |deps| && 0 <= i < |deps[k].content.materials|
      ensures MaterialAt(TakenMaterials(deps), Start(MaterialParts(deps), k) + i,
                         deps[k].content.materials[i].(provider := k + 1))
    {
      StampedAt(MaterialParts(deps), StampMaterial, |deps|, k, i);
    }
  }

  lemma SoundsKept(deps: seq<Library>)
    ensures SoundsMoved(deps, TakenSounds(deps))
  {
    hide Stamped, Start;
    StampedLength(SoundParts(deps), StampSound, |deps|);
    forall k, i | 0 <= k < |deps| && 0 <= i < |deps[k].content.sounds|
      ensures SoundAt(TakenSounds(deps), Start(SoundParts(deps), k) + i,
                      deps[k].content.sounds[i].(provider := k + 1))
    {
      StampedAt(SoundParts(deps), StampSound, |deps|, k, i);
    }
  }

  lemma ModelsKept(deps: seq<Library>, out: Table)
    requires AllInSlots(deps) && AllBindable(deps) && Takes(deps, out)
    ensures ModelsMoved(deps, out)
  {
    hide Stamped, Start, TakenMaterials, TakenTextures, TakenSounds, ModelAt, Bound, Bindable, GroupsInSlots;
    StampedLength(ModelParts(deps), StampModel, |deps|);
    forall k, i | 0 <= k < |deps| && 0 <= i < |deps[k].content.models|
      ensures ModelAt(out, Start(ModelParts(deps), k) + i, deps[k].content.models[i].(provider := k + 1))
    {
      ModelKept(deps, out, k, i);
    }
  }

  lemma ModelKept(deps: seq<Library>, out: Table, k: nat, i: nat)
    requires AllInSlots(deps) && AllBindable(deps) && Takes(deps, out)
    requires k < |deps| && i < |deps[k].content.models|
    ensures ModelAt(out, Start(ModelParts(deps), k) + i, deps[k].content.models[i].(provider := k + 1))
  {
    hide Stamped, Start, TakenMaterials, TakenTextures, TakenSounds, ModelAt, Bound, Bindable, GroupsInSlots;
    StampedAt(ModelParts(deps), StampModel, |deps|, k, i);
    var n := Start(ModelParts(deps), k) + i;
    assert Bound(TakenModels(deps)[n], out.models[n], out.materials, out.textures);
    BoundAt(out, n, deps[k].content.models[i].(provider := k + 1));
  }

  lemma BoundAt(out: Table, n: nat, m: Model)
    requires n < |out.models| && Bindable(m, out.materials, out.textures) && GroupsInSlots(m)
    requires Bound(m, out.models[n], out.materials, out.textures)
    ensures ModelAt(out, n, m)
  {}

  /** What the table takes over is what the libraries held. */
  lemma TakesMoves(deps: seq<Library>, out: Table)
    requires AllInSlots(deps) && AllBindable(deps) && Takes(deps, out)
    ensures Moved(deps, out)
  {
    hide TexturesMoved, MaterialsMoved, SoundsMoved, ModelsMoved;
    hide TakenTextures, TakenMaterials, TakenSounds, TakenModels;
    TexturesKept(deps);
    MaterialsKept(deps);
    SoundsKept(deps);
    ModelsKept(deps, out);
  }

  /** The library has handed its assets over and kept its scripts and prefabs. */
  ghost predicate HandedOver(d: Library, d': Library) {
    d' == Dep(d.decl, d.direct, Content(d.content.scripts, d.content.prefabs, [], [], [], []))
  }

  method TakeAssets(loaded: PackageSet<Content>) returns (ok: bool, out: Table)
    requires AllInSlots(loaded.deps)
    modifies loaded`deps
    ensures |loaded.deps| == |old(loaded.deps)| && forall k :: 0 <= k < |loaded.deps| ==>
      HandedOver(old(loaded.deps)[k], loaded.deps[k])
    ensures ok <==> AllBindable(old(loaded.deps))
    ensures if ok then Takes(old(loaded.deps), out) && Moved(old(loaded.deps), out) else out == Table([], [], [], [])
  {
    hide TakenTextures, TakenMaterials, TakenModels, TakenSounds, HandedOver, Bound, Bindable, GroupsInSlots, Moved;
    ghost var was := loaded.deps;
    out := MoveAssets(loaded);
    var taken := out.models;
    ghost var left := loaded.deps;
    assert taken == TakenModels(was);
    for i := 0 to |out.models|
      invariant loaded.deps == left && |out.models| == |taken| &&
        out == Table(TakenTextures(was), TakenMaterials(was), out.models, TakenSounds(was))
      invariant forall j :: 0 <= j < i ==>
        Bindable(taken[j], out.materials, out.textures) &&
        Bound(taken[j], out.models[j], out.materials, out.textures)
      invariant forall j :: i <= j < |taken| ==> out.models[j] == taken[j]
    {
      var bound, m := BindModel(out.models[i], out.materials, out.textures);
      if !bound {
        return false, Table([], [], [], []);
      }
      out := out.(models := out.models[i := m]);
    }
    TakesMoves(was, out);
    ok := true;
  }

  lemma Hands(d: Library, left: Content)
    requires left == d.content.(textures := [], materials := [], models := [], sounds := [])
    ensures HandedOver(d, d.(content := left))
  {}

  lemma NothingMoved(deps: seq<Library>)
    ensures MovedTo(deps, 0, Table([], [], [], []))
  {}

  /** The first k libraries' assets. */
  ghost predicate MovedTo(deps: seq<Library>, k: nat, out: Table)
    requires k <= |deps|
  {
    out == Table(Stamped(TextureParts(deps), StampTexture, k), Stamped(MaterialParts(deps), StampMaterial, k),
                 Stamped(ModelParts(deps), StampModel, k), Stamped(SoundParts(deps), StampSound, k))
  }

  lemma MovedNext(deps: seq<Library>, k: nat, out: Table, next: Table)
    requires k < |deps| && MovedTo(deps, k, out)
    requires next.textures == out.textures + StampAll(deps[k].content.textures, StampTexture, k + 1)
    requires next.materials == out.materials + StampAll(deps[k].content.materials, StampMaterial, k + 1)
    requires next.models == out.models + StampAll(deps[k].content.models, StampModel, k + 1)
    requires next.sounds == out.sounds + StampAll(deps[k].content.sounds, StampSound, k + 1)
    ensures MovedTo(deps, k + 1, next)
  {
    hide Stamped, StampAll;
    StampedNext(TextureParts(deps), StampTexture, k);
    StampedNext(MaterialParts(deps), StampMaterial, k);
    StampedNext(ModelParts(deps), StampModel, k);
    StampedNext(SoundParts(deps), StampSound, k);
  }

  lemma MovedAll(deps: seq<Library>, out: Table)
    requires MovedTo(deps, |deps|, out)
    ensures out == Table(TakenTextures(deps), TakenMaterials(deps), TakenModels(deps), TakenSounds(deps))
  {
    hide Stamped;
  }

  /** Moves, library by library: the combined index is base plus local. */
  method MoveAssets(loaded: PackageSet<Content>) returns (out: Table)
    modifies loaded`deps
    ensures |loaded.deps| == |old(loaded.deps)| && forall k :: 0 <= k < |loaded.deps| ==>
      HandedOver(old(loaded.deps)[k], loaded.deps[k])
    ensures out == Table(TakenTextures(old(loaded.deps)), TakenMaterials(old(loaded.deps)),
      TakenModels(old(loaded.deps)), TakenSounds(old(loaded.deps)))
  {
    hide StampAll, HandedOver, MovedTo;
    ghost var was := loaded.deps;
    out := Table([], [], [], []);
    NothingMoved(was);
    for k := 0 to |loaded.deps|
      invariant |loaded.deps| == |was|
      invariant forall j :: 0 <= j < k ==> HandedOver(was[j], loaded.deps[j])
      invariant forall j :: k <= j < |was| ==> loaded.deps[j] == was[j]
      invariant MovedTo(was, k, out)
    {
      var c := loaded.deps[k].content;
      var textures := Move(out.textures, c.textures, StampTexture, k + 1);
      var materials := Move(out.materials, c.materials, StampMaterial, k + 1);
      var models := Move(out.models, c.models, StampModel, k + 1);
      var sounds := Move(out.sounds, c.sounds, StampSound, k + 1);
      MovedNext(was, k, out, Table(textures, materials, models, sounds));
      out := Table(textures, materials, models, sounds);
      var left := c.(textures := [], materials := [], models := [], sounds := []);
      Hands(loaded.deps[k], left);
      loaded.deps := loaded.deps[k := loaded.deps[k].(content := left)];
    }
    MovedAll(was, out);
  }

  /** A model by its combined index, before the table is taken. */
  method SetModel(deps: seq<Library>, index: nat) returns (m: Option<Model>)
    ensures m == if index < |Concat(ModelParts(deps))| then Some(Concat(ModelParts(deps))[index]) else None
  {
    m := At(ModelParts(deps), index);
  }

  // ----- what the indices mean, before and after the move

  lemma NamedTexture(deps: seq<Library>, n: nat, id: string)
    requires NamesIt(deps, Kind.Texture, n, id)
    ensures n < |TakenTextures(deps)| && TakenTextures(deps)[n].id == id
  {
    hide Concat, Start, IdParts, TextureParts, TextureIds, Stamped;
    var ids, parts := IdParts(deps, Kind.Texture), TextureParts(deps);
    var k, i := Locate(ids, n);
    SameStarts(ids, parts, k);
    StampedAt(parts, StampTexture, |deps|, k, i);
  }

  lemma NamedMaterial(deps: seq<Library>, n: nat, id: string)
    requires NamesIt(deps, Kind.Material, n, id)
    ensures n < |TakenMaterials(deps)| && TakenMaterials(deps)[n].id == id
  {
    hide Concat, Start, IdParts, MaterialParts, MaterialIds, Stamped;
    var ids, parts := IdParts(deps, Kind.Material), MaterialParts(deps);
    var k, i := Locate(ids, n);
    SameStarts(ids, parts, k);
    StampedAt(parts, StampMaterial, |deps|, k, i);
  }

  /** In a linked set every combined material's index is its texture's, in the combined table. */
  lemma MaterialFindsTexture(deps: seq<Library>, n: nat)
    requires Linked(deps) && n < |TakenMaterials(deps)|
    ensures var m := TakenMaterials(deps)[n];
      m.texture < |TakenTextures(deps)| && TakenTextures(deps)[m.texture].id == m.textureRef
  {
    hide NamesIt, TakenTextures;
    var parts := MaterialParts(deps);
    StampedLength(parts, StampMaterial, |deps|);
    ConcatLength(parts);
    var k, i := Locate(parts, n);
    StampedAt(parts, StampMaterial, |deps|, k, i);
    var m := deps[k].content.materials[i];
    assert LibraryLinked(deps, deps[k].content);
    NamedTexture(deps, m.texture, m.textureRef);
  }

  /** And every combined model's slot is its material's. */
  lemma SlotFindsMaterial(deps: seq<Library>, n: nat, s: nat)
    requires Linked(deps) && n < |TakenModels(deps)| && s < |TakenModels(deps)[n].slots|
    ensures var m := TakenModels(deps)[n];
      |m.slots| == |m.slotRefs| && m.slots[s] < |TakenMaterials(deps)| &&
        TakenMaterials(deps)[m.slots[s]].id == m.slotRefs[s]
  {
    hide NamesIt, TakenMaterials;
    var parts := ModelParts(deps);
    StampedLength(parts, StampModel, |deps|);
    ConcatLength(parts);
    var k, i := Locate(parts, n);
    StampedAt(parts, StampModel, |deps|, k, i);
    var m := deps[k].content.models[i];
    assert LibraryLinked(deps, deps[k].content) && ModelLinked(deps, m);
    NamedMaterial(deps, m.slots[s], m.slotRefs[s]);
  }

  /** So binding never refuses a linked set. */
  lemma LinkedBinds(deps: seq<Library>)
    requires Linked(deps)
    ensures AllBindable(deps)
  {
    hide Linked, TakenMaterials, TakenModels, TakenTextures;
    forall i, s | 0 <= i < |TakenModels(deps)| && 0 <= s < |TakenModels(deps)[i].slots|
      ensures TakenModels(deps)[i].slots[s] < |TakenMaterials(deps)|
      ensures TakenMaterials(deps)[TakenModels(deps)[i].slots[s]].texture < |TakenTextures(deps)|
    {
      SlotFindsMaterial(deps, i, s);
      MaterialFindsTexture(deps, TakenModels(deps)[i].slots[s]);
    }
  }

  ghost predicate Drawn(model: Model, s: nat, m: Material, t: Texture)
    requires s < |model.slotRefs| && |model.skins| == |model.slotRefs|
  {
    m.id == model.slotRefs[s] && t.id == m.textureRef && model.skins[s] == Skin(t.width, t.height, t.pixels, 0xFFFFFF)
  }

  /** A taken model draws each slot with the pixels of the texture that the material named in the slot names. */
  lemma TakenModelDraws(deps: seq<Library>, out: Table, n: nat, s: nat)
    requires Linked(deps) && AllInSlots(deps) && AllBindable(deps) && Takes(deps, out)
    requires n < |out.models| && s < |out.models[n].slotRefs|
    ensures |out.models[n].skins| == |out.models[n].slots| == |out.models[n].slotRefs|
    ensures exists m, t :: m in out.materials && t in out.textures && Drawn(out.models[n], s, m, t)
  {
    hide Linked, TakenMaterials, TakenModels, TakenTextures;
    var model := TakenModels(deps)[n];
    assert Bound(model, out.models[n], out.materials, out.textures);
    SlotsAreRefs(deps, n);
    SlotFindsMaterial(deps, n, s);
    MaterialFindsTexture(deps, model.slots[s]);
    var m := out.materials[model.slots[s]];
    var t := out.textures[m.texture];
    assert m in out.materials && t in out.textures && Drawn(out.models[n], s, m, t);
  }

  lemma SlotsAreRefs(deps: seq<Library>, n: nat)
    requires Linked(deps) && n < |TakenModels(deps)|
    ensures |TakenModels(deps)[n].slots| == |TakenModels(deps)[n].slotRefs|
  {
    hide NamesIt;
    var parts := ModelParts(deps);
    StampedLength(parts, StampModel, |deps|);
    ConcatLength(parts);
    var k, i := Locate(parts, n);
    StampedAt(parts, StampModel, |deps|, k, i);
    assert LibraryLinked(deps, deps[k].content) && ModelLinked(deps, deps[k].content.models[i]);
  }

  /** The model an index gives before the move is the one at that index of the table after it. */
  lemma SameModelAfter(deps: seq<Library>, out: Table, n: nat)
    requires AllInSlots(deps) && AllBindable(deps) && Takes(deps, out)
    ensures |out.models| == |Concat(ModelParts(deps))|
    ensures n < |out.models| ==>
      var m, m' := Concat(ModelParts(deps))[n], out.models[n];
      m' == m.(provider := m'.provider, skins := m'.skins, groups := m'.groups) && 0 < m'.provider <= |deps|
  {
    hide Concat, TakenMaterials, TakenTextures;
    var parts := ModelParts(deps);
    StampedLength(parts, StampModel, |deps|);
    ConcatLength(parts);
    if n < |out.models| {
      assert Bound(TakenModels(deps)[n], out.models[n], out.materials, out.textures);
      var k, i := Locate(parts, n);
      StampedAt(parts, StampModel, |deps|, k, i);
    }
  }
}
