/** Loading a package set from start to end: its packages, its assets' references and its prefabs' references, and the
    move into the combined table, where every index written on the way names what was asked for. */
module PackageLinks {
  import opened Finite
  import opened Options
  import opened PackageAssets
  import opened PackageGraph
  import opened ResourceIds
  import opened Tables
  import opened Texts

  // ----- scripts

  /** The script the library has under that ID declares that it can be used. */
  predicate CanBeUsed(c: Content, ref: string) {
    var at := PlaceOf(ScriptIds(c.scripts), ref);
    at.Some? && c.scripts[at.value].onUsed
  }

  /** Library k offers the resource, and library self has it itself or imports it. */
  ghost predicate ProvidedTo(deps: seq<Library>, self: nat, k: nat, ref: string)
    requires self < |deps|
  {
    k < |deps| && Offers(deps[k].decl, ref) && (k == self || MayUse(deps, deps[self].decl.needs, ref, k + 1))
  }

  ghost predicate UsableScript(deps: seq<Library>, self: nat, ref: string)
    requires self < |deps|
  {
    HasKind(ref, Kind.Script) && exists k: nat :: ProvidedTo(deps, self, k, ref) && CanBeUsed(deps[k].content, ref)
  }

  /** The script's library and place there. */
  ghost predicate ScriptNamed(deps: seq<Library>, self: nat, dep: nat, script: nat, ref: string)
    requires self < |deps|
  {
    && ProvidedTo(deps, self, dep, ref) && script < |deps[dep].content.scripts|
    && deps[dep].content.scripts[script].id == ref && deps[dep].content.scripts[script].onUsed
  }

  function ProviderOf(self: nat, e: Entry): nat { if e.provider != 0 then e.provider - 1 else self }

  lemma ResolvedScript(root: Decl, deps: seq<Library>, self: nat, imports: seq<Import>, ref: string, e: Entry)
    requires WellLoaded(root, deps) && self < |deps| && Imported(deps, deps[self].decl.needs, imports)
    requires Resolves(Concat(EntryParts(deps, self)), imports, Field(Kind.Script, true), ref, e)
    ensures var k := ProviderOf(self, e);
      ProvidedTo(deps, self, k, ref) && PlaceOf(ScriptIds(deps[k].content.scripts), ref) == Some(e.index)
    ensures HasKind(ref, Kind.Script)
  {
    hide HasKind, WellLoaded, Concat, MayUse, EntryParts, PlaceOf, ScriptIds, Offers;
    var k, i := EntryOrigin(deps, self, e);
    var p := deps[k].decl.offers[i];
    OfferIsHeld(root, deps, k, i);
    OneKind(ref, p.kind, Kind.Script);
    assert k != self ==> Import(ref, k + 1) in imports && MayUse(deps, deps[self].decl.needs, ref, k + 1);
  }

  /** Resources are offered once, so only one library provides it. */
  lemma OneProvider(deps: seq<Library>, self: nat, a: nat, b: nat, ref: string)
    requires self < |deps| && OneEach(Concat(EntryParts(deps, self)))
    requires ProvidedTo(deps, self, a, ref) && ProvidedTo(deps, self, b, ref)
    ensures a == b
  {
    hide MayUse, Concat, EntryParts, OneEach, EntryAt;
    var i :| 0 <= i < |deps[a].decl.offers| && deps[a].decl.offers[i].id == ref;
    var j :| 0 <= j < |deps[b].decl.offers| && deps[b].decl.offers[j].id == ref;
    EntryIsThere(deps, self, a, i);
    EntryIsThere(deps, self, b, j);
    OnlyEntry(Concat(EntryParts(deps, self)), EntryOf(deps, self, a, i));
  }

  lemma UsableResolves(deps: seq<Library>, self: nat, imports: seq<Import>, ref: string)
    requires self < |deps| && Imported(deps, deps[self].decl.needs, imports) && UsableScript(deps, self, ref)
    ensures exists e :: Resolves(Concat(EntryParts(deps, self)), imports, Field(Kind.Script, true), ref, e)
  {
    hide HasKind, Concat, EntryParts, MayUse, Resolves, Offers;
    var k: nat :| ProvidedTo(deps, self, k, ref) && CanBeUsed(deps[k].content, ref);
    assert Resolvable(deps, self, Kind.Script, ref);
    var e := ResolvableResolves(deps, self, imports, Kind.Script, ref);
  }

  method ResolveScript(root: Decl, deps: seq<Library>, self: nat, rs: ResourceSet, ref: string)
    returns (dep: nat, script: Option<nat>)
    requires WellLoaded(root, deps) && self < |deps| && rs.Valid()
    requires rs.entries == Concat(EntryParts(deps, self)) && Imported(deps, deps[self].decl.needs, rs.imports)
    ensures script.Some? <==> UsableScript(deps, self, ref)
    ensures script.Some? ==> ScriptNamed(deps, self, dep, script.value, ref)
  {
    hide HasKind, WellLoaded, Concat, MayUse, EntryParts, Imported, ProvidedTo, Offers, PlaceOf, ScriptIds, Resolves;
    ValidFits(rs);
    var e := rs.Resolve(Field(Kind.Script, true), ref);
    if e.None? {
      if UsableScript(deps, self, ref) {
        UsableResolves(deps, self, rs.imports, ref);
      }
      return 0, None;
    }
    ResolvedScript(root, deps, self, rs.imports, ref, e.value);
    dep := if e.value.provider != 0 then e.value.provider - 1 else self;
    assert dep < |deps| by { ProviderLoaded(deps, self, dep, ref); }
    var scripts := deps[dep].content.scripts;
    if e.value.index >= |scripts| {
      return dep, None;
    }
    if !scripts[e.value.index].onUsed {
      NotUsable(deps, self, dep, ref);
      return dep, None;
    }
    script := Some(e.value.index);
  }

  lemma ProviderLoaded(deps: seq<Library>, self: nat, k: nat, ref: string)
    requires self < |deps| && ProvidedTo(deps, self, k, ref)
    ensures k < |deps|
  {}

  lemma NotUsable(deps: seq<Library>, self: nat, k: nat, ref: string)
    requires self < |deps| && OneEach(Concat(EntryParts(deps, self))) && ProvidedTo(deps, self, k, ref)
    requires k < |deps| && !CanBeUsed(deps[k].content, ref)
    ensures !UsableScript(deps, self, ref)
  {
    hide ProvidedTo, CanBeUsed, OneEach, Concat, EntryParts, HasKind;
    forall j: nat | ProvidedTo(deps, self, j, ref) ensures j == k {
      OneProvider(deps, self, j, k, ref);
    }
  }

  // ----- a prefab's references

  /** "" is no reference. */
  ghost predicate RefResolves(deps: seq<Library>, self: nat, kind: Kind, ref: string)
    requires self < |deps|
  {
    ref != "" ==> Resolvable(deps, self, kind, ref)
  }

  ghost predicate ChildResolves(deps: seq<Library>, self: nat, ch: PrefabChild)
    requires self < |deps|
  {
    && RefResolves(deps, self, Kind.Model, ch.modelRef) && RefResolves(deps, self, Kind.Sound, ch.soundRef)
    && (ch.scriptRef != "" ==> UsableScript(deps, self, ch.scriptRef))
  }

  ghost predicate CuesResolve(deps: seq<Library>, self: nat, cues: seq<Cue>)
    requires self < |deps|
  {
    forall a :: 0 <= a < |cues| ==> RefResolves(deps, self, Kind.Sound, cues[a].soundRef)
  }

  ghost predicate PrefabResolves(deps: seq<Library>, self: nat, p: Prefab)
    requires self < |deps|
  {
    && (forall c :: 0 <= c < |p.children| ==> ChildResolves(deps, self, p.children[c]))
    && (forall b :: 0 <= b < |p.bindings| ==> CuesResolve(deps, self, p.bindings[b]))
  }

  ghost predicate PrefabsResolve(deps: seq<Library>, self: nat)
    requires self < |deps|
  {
    forall i :: 0 <= i < |deps[self].content.prefabs| ==> PrefabResolves(deps, self, deps[self].content.prefabs[i])
  }

  /** One more than the combined index of the resource, within 16 bits. */
  ghost predicate Points(deps: seq<Library>, kind: Kind, ref: string, n: nat) {
    ref != "" ==> 0 < n <= 0xFFFF && NamesIt(deps, kind, n - 1, ref)
  }

  ghost predicate ChildLinked(deps: seq<Library>, self: nat, ch: PrefabChild)
    requires self < |deps|
  {
    && Points(deps, Kind.Model, ch.modelRef, ch.model) && Points(deps, Kind.Sound, ch.soundRef, ch.sound)
    && (ch.scriptRef != "" ==> 0 < ch.scriptDep && ScriptNamed(deps, self, ch.scriptDep - 1, ch.script, ch.scriptRef))
  }

  ghost predicate CuesLinked(deps: seq<Library>, cues: seq<Cue>) {
    forall a :: 0 <= a < |cues| ==> Points(deps, Kind.Sound, cues[a].soundRef, cues[a].sound)
  }

  ghost predicate PrefabLinked(deps: seq<Library>, self: nat, p: Prefab)
    requires self < |deps|
  {
    && (forall c :: 0 <= c < |p.children| ==> ChildLinked(deps, self, p.children[c]))
    && (forall b :: 0 <= b < |p.bindings| ==> CuesLinked(deps, p.bindings[b]))
  }

  ghost predicate PrefabsLinked(deps: seq<Library>, self: nat, w: seq<Prefab>)
    requires self < |deps|
  {
    forall i :: 0 <= i < |w| ==> PrefabLinked(deps, self, w[i])
  }

  lemma IndexSmall(root: Decl, deps: seq<Library>, kind: Kind, n: nat, id: string)
    requires WellLoaded(root, deps) && NamesIt(deps, kind, n, id)
    ensures n < 0xFFFF
  {
    hide NeedsLoaded, Concat, Start, Ids, Offers, OfferHeld;
    var parts := IdParts(deps, kind);
    forall j | 0 <= j < |parts| ensures |parts[j]| <= MAX_PER_LIST {
      assert Consistent(deps[j]);
    }
    StartBounded(parts, |parts|, MAX_PER_LIST);
    ConcatLength(parts);
  }

  /** The index one higher, in 16 bits; 0 for no reference. */
  method ResolvePoint(root: Decl, deps: seq<Library>, self: nat, rs: ResourceSet, kind: Kind, ref: string)
    returns (ok: bool, n: nat)
    requires WellLoaded(root, deps) && self < |deps| && IsAsset(kind) && rs.Valid()
    requires rs.entries == Concat(EntryParts(deps, self)) && Imported(deps, deps[self].decl.needs, rs.imports)
    requires ref != ""
    ensures ok <==> Resolvable(deps, self, kind, ref)
    ensures ok ==> Points(deps, kind, ref, n)
  {
    hide WellLoaded, Imported, Concat, EntryParts, Resolvable, NamesIt;
    var at := ResolveIndex(root, deps, self, rs, kind, ref);
    if at.None? {
      return false, 0;
    }
    IndexSmall(root, deps, kind, at.value, ref);
    ok, n := true, (at.value + 1) % 0x1_0000;
  }

  method LinkChild(root: Decl, deps: seq<Library>, self: nat, rs: ResourceSet, ch0: PrefabChild)
    returns (ok: bool, ch: PrefabChild)
    requires WellLoaded(root, deps) && self < |deps| && rs.Valid()
    requires rs.entries == Concat(EntryParts(deps, self)) && Imported(deps, deps[self].decl.needs, rs.imports)
    ensures SameChild(ch0, ch)
    ensures ok <==> ChildResolves(deps, self, ch0)
    ensures ok ==> ChildLinked(deps, self, ch)
  {
    hide WellLoaded, Imported, Concat, EntryParts, Resolvable, NamesIt, UsableScript, ScriptNamed;
    ch := ch0;
    if ch.modelRef != "" {
      var found, n := ResolvePoint(root, deps, self, rs, Kind.Model, ch.modelRef);
      if !found {
        return false, ch;
      }
      ch := ch.(model := n);
    }
    if ch.soundRef != "" {
      var found, n := ResolvePoint(root, deps, self, rs, Kind.Sound, ch.soundRef);
      if !found {
        return false, ch;
      }
      ch := ch.(sound := n);
    }
    if ch.scriptRef != "" {
      var dep, script := ResolveScript(root, deps, self, rs, ch.scriptRef);
      if script.None? {
        return false, ch;
      }
      ch := ch.(scriptDep := dep + 1, script := script.value);
    }
    ok := true;
  }

  method LinkCues(root: Decl, deps: seq<Library>, self: nat, rs: ResourceSet, cues0: seq<Cue>)
    returns (ok: bool, cues: seq<Cue>)
    requires WellLoaded(root, deps) && self < |deps| && rs.Valid()
    requires rs.entries == Concat(EntryParts(deps, self)) && Imported(deps, deps[self].decl.needs, rs.imports)
    ensures SameCues(cues0, cues)
    ensures ok <==> CuesResolve(deps, self, cues0)
    ensures ok ==> CuesLinked(deps, cues)
  {
    hide WellLoaded, Imported, Concat, EntryParts, Resolvable, NamesIt;
    cues := cues0;
    for a := 0 to |cues|
      invariant SameCues(cues0, cues)
      invariant forall b :: 0 <= b < a ==> RefResolves(deps, self, Kind.Sound, cues0[b].soundRef)
      invariant forall b :: 0 <= b < a ==> Points(deps, Kind.Sound, cues[b].soundRef, cues[b].sound)
    {
      if cues[a].soundRef != "" {
        var found, n := ResolvePoint(root, deps, self, rs, Kind.Sound, cues[a].soundRef);
        if !found {
          assert !RefResolves(deps, self, Kind.Sound, cues0[a].soundRef);
          return false, cues;
        }
        cues := cues[a := cues[a].(sound := n)];
      }
    }
    ok := true;
  }

  method LinkPrefab(root: Decl, deps: seq<Library>, self: nat, rs: ResourceSet, p0: Prefab)
    returns (ok: bool, p: Prefab)
    requires WellLoaded(root, deps) && self < |deps| && rs.Valid()
    requires rs.entries == Concat(EntryParts(deps, self)) && Imported(deps, deps[self].decl.needs, rs.imports)
    ensures SamePrefab(p0, p)
    ensures ok <==> PrefabResolves(deps, self, p0)
    ensures ok ==> PrefabLinked(deps, self, p)
  {
    hide WellLoaded, Imported, Concat, EntryParts, ChildResolves, ChildLinked, CuesResolve, CuesLinked;
    hide SameChild, SameCues;
    p := p0;
    SamePrefabItself(p);
    for c := 0 to |p.children|
      invariant SamePrefab(p0, p) && p.bindings == p0.bindings
      invariant forall d :: c <= d < |p.children| ==> p.children[d] == p0.children[d]
      invariant forall d :: 0 <= d < c ==> ChildResolves(deps, self, p0.children[d])
      invariant forall d :: 0 <= d < c ==> ChildLinked(deps, self, p.children[d])
    {
      var good, ch := LinkChild(root, deps, self, rs, p.children[c]);
      p := p.(children := p.children[c := ch]);
      if !good {
        return false, p;
      }
    }
    for b := 0 to |p.bindings|
      invariant SamePrefab(p0, p)
      invariant forall d :: b <= d < |p.bindings| ==> p.bindings[d] == p0.bindings[d]
      invariant forall d :: 0 <= d < |p.children| ==> ChildLinked(deps, self, p.children[d])
      invariant forall d :: 0 <= d < b ==> CuesResolve(deps, self, p0.bindings[d])
      invariant forall d :: 0 <= d < b ==> CuesLinked(deps, p.bindings[d])
    {
      var good, cues := LinkCues(root, deps, self, rs, p.bindings[b]);
      p := p.(bindings := p.bindings[b := cues]);
      if !good {
        return false, p;
      }
    }
    ok := true;
  }

  lemma SamePrefabItself(p: Prefab)
    ensures SamePrefab(p, p)
  {}

  method LinkLibraryPrefabs(root: Decl, deps: seq<Library>, k: nat, rs: ResourceSet) returns (ok: bool, w: seq<Prefab>)
    requires WellLoaded(root, deps) && k < |deps| && rs.Valid()
    requires rs.entries == Concat(EntryParts(deps, k)) && Imported(deps, deps[k].decl.needs, rs.imports)
    ensures SamePrefabs(deps[k].content.prefabs, w)
    ensures ok <==> PrefabsResolve(deps, k)
    ensures ok ==> PrefabsLinked(deps, k, w)
  {
    hide WellLoaded, Imported, Concat, EntryParts, PrefabResolves, PrefabLinked, SamePrefab;
    ghost var was := deps[k].content.prefabs;
    w := deps[k].content.prefabs;
    forall i | 0 <= i < |w| ensures SamePrefab(w[i], w[i]) {
      SamePrefabItself(w[i]);
    }
    for i := 0 to |w|
      invariant SamePrefabs(was, w)
      invariant forall j :: i <= j < |w| ==> w[j] == was[j]
      invariant forall j :: 0 <= j < i ==> PrefabResolves(deps, k, was[j])
      invariant forall j :: 0 <= j < i ==> PrefabLinked(deps, k, w[j])
    {
      var good, p := LinkPrefab(root, deps, k, rs, w[i]);
      w := w[i := p];
      if !good {
        return false, w;
      }
    }
    ok := true;
  }

  // ----- the whole set's prefabs

  /** Only prefabs' indices differ. */
  ghost predicate OnlyPrefabs(deps: seq<Library>, deps': seq<Library>) {
    |deps| == |deps'| && forall k :: 0 <= k < |deps| ==> PrefabsOnly(deps[k], deps'[k])
  }

  ghost predicate PrefabsOnly(d: Library, d': Library) {
    && d' == d.(content := d.content.(prefabs := d'.content.prefabs))
    && SamePrefabs(d.content.prefabs, d'.content.prefabs)
  }

  lemma OnlyPrefabsSame(deps: seq<Library>, deps': seq<Library>)
    requires OnlyPrefabs(deps, deps')
    ensures SameSet(deps, deps')
  {
    hide SamePrefabs;
    forall k | 0 <= k < |deps| ensures SameLibrary(deps[k], deps'[k]) {
      assert PrefabsOnly(deps[k], deps'[k]);
    }
  }

  lemma OnlyPrefabsItself(deps: seq<Library>)
    ensures OnlyPrefabs(deps, deps)
  {
    hide SamePrefabs;
    forall k | 0 <= k < |deps| ensures PrefabsOnly(deps[k], deps[k]) {
      SamePrefabsItself(deps[k].content.prefabs);
    }
  }

  lemma OnlyPrefabsStep(was: seq<Library>, now: seq<Library>, k: nat, w: seq<Prefab>)
    requires OnlyPrefabs(was, now) && k < |now| && now[k] == was[k] && SamePrefabs(now[k].content.prefabs, w)
    ensures OnlyPrefabs(was, now[k := now[k].(content := now[k].content.(prefabs := w))])
    ensures OnlyPrefabs(now, now[k := now[k].(content := now[k].content.(prefabs := w))])
  {
    hide SamePrefabs;
    var next := now[k := now[k].(content := now[k].content.(prefabs := w))];
    OnlyPrefabsItself(now);
    forall j | 0 <= j < |was| ensures PrefabsOnly(was[j], next[j]) && PrefabsOnly(now[j], next[j]) {
      assert PrefabsOnly(was[j], now[j]) && PrefabsOnly(now[j], now[j]);
    }
  }

  lemma SameSize(deps: seq<Library>, deps': seq<Library>)
    requires SameSet(deps, deps')
    ensures |deps'| == |deps|
  {}

  lemma SameScripts(deps: seq<Library>, deps': seq<Library>, k: nat)
    requires SameSet(deps, deps') && k < |deps|
    ensures deps'[k].content.scripts == deps[k].content.scripts
  {
    assert SameLibrary(deps[k], deps'[k]);
  }

  lemma SameProvided(deps: seq<Library>, deps': seq<Library>, self: nat, k: nat, ref: string)
    requires SameSet(deps, deps') && self < |deps|
    ensures ProvidedTo(deps', self, k, ref) <==> ProvidedTo(deps, self, k, ref)
  {
    hide Offers, MayUse, SameSet;
    SameSize(deps, deps');
    SameUse(deps, deps', self, ref);
  }

  lemma SameUsable(deps: seq<Library>, deps': seq<Library>, self: nat, ref: string)
    requires SameSet(deps, deps') && self < |deps|
    ensures UsableScript(deps', self, ref) <==> UsableScript(deps, self, ref)
  {
    hide ProvidedTo, HasKind, SameSet;
    SameSize(deps, deps');
    forall k: nat ensures ProvidedTo(deps', self, k, ref) <==> ProvidedTo(deps, self, k, ref) {
      SameProvided(deps, deps', self, k, ref);
    }
    forall k: nat | ProvidedTo(deps, self, k, ref)
      ensures k < |deps| && k < |deps'| && deps'[k].content.scripts == deps[k].content.scripts
    {
      ProviderLoaded(deps, self, k, ref);
      ProviderLoaded(deps', self, k, ref);
      SameScripts(deps, deps', k);
    }
  }

  lemma SameRefResolves(deps: seq<Library>, deps': seq<Library>, self: nat, kind: Kind, ref: string)
    requires SameSet(deps, deps') && self < |deps|
    ensures RefResolves(deps', self, kind, ref) <==> RefResolves(deps, self, kind, ref)
  {
    hide HasKind, Offers, MayUse;
    SameUse(deps, deps', self, ref);
  }

  lemma SamePrefabResolves(deps: seq<Library>, deps': seq<Library>, self: nat, p: Prefab, p': Prefab)
    requires SameSet(deps, deps') && self < |deps| && SamePrefab(p, p')
    ensures PrefabResolves(deps', self, p') <==> PrefabResolves(deps, self, p)
  {
    hide UsableScript, RefResolves, SameSet;
    SameSize(deps, deps');
    forall c | 0 <= c < |p.children|
      ensures ChildResolves(deps', self, p'.children[c]) <==> ChildResolves(deps, self, p.children[c])
    {
      assert SameChild(p.children[c], p'.children[c]);
      SameRefResolves(deps, deps', self, Kind.Model, p.children[c].modelRef);
      SameRefResolves(deps, deps', self, Kind.Sound, p.children[c].soundRef);
      SameUsable(deps, deps', self, p.children[c].scriptRef);
    }
    forall b | 0 <= b < |p.bindings|
      ensures CuesResolve(deps', self, p'.bindings[b]) <==> CuesResolve(deps, self, p.bindings[b])
    {
      assert SameCues(p.bindings[b], p'.bindings[b]);
      forall a | 0 <= a < |p.bindings[b]|
        ensures RefResolves(deps', self, Kind.Sound, p'.bindings[b][a].soundRef) <==>
          RefResolves(deps, self, Kind.Sound, p.bindings[b][a].soundRef)
      {
        SameRefResolves(deps, deps', self, Kind.Sound, p.bindings[b][a].soundRef);
      }
    }
  }

  lemma SamePrefabsResolve(deps: seq<Library>, deps': seq<Library>, k: nat)
    requires SameSet(deps, deps') && k < |deps|
    ensures PrefabsResolve(deps', k) <==> PrefabsResolve(deps, k)
  {
    hide SamePrefab, PrefabResolves;
    assert SameLibrary(deps[k], deps'[k]);
    var w, w' := deps[k].content.prefabs, deps'[k].content.prefabs;
    forall i | 0 <= i < |w| ensures PrefabResolves(deps', k, w'[i]) <==> PrefabResolves(deps, k, w[i]) {
      SamePrefabResolves(deps, deps', k, w[i], w'[i]);
    }
  }

  lemma SameChildLinked(deps: seq<Library>, deps': seq<Library>, self: nat, ch: PrefabChild)
    requires SameSet(deps, deps') && self < |deps|
    ensures ChildLinked(deps', self, ch) <==> ChildLinked(deps, self, ch)
  {
    hide SameSet, Concat, IdParts, ProvidedTo;
    SameSize(deps, deps');
    SameParts(deps, deps', Kind.Model);
    SameParts(deps, deps', Kind.Sound);
    if ch.scriptDep > 0 {
      var k: nat := ch.scriptDep - 1;
      SameProvided(deps, deps', self, k, ch.scriptRef);
      if ProvidedTo(deps, self, k, ch.scriptRef) {
        ProviderLoaded(deps, self, k, ch.scriptRef);
        SameScripts(deps, deps', k);
      }
    }
  }

  lemma SamePrefabsLinked(deps: seq<Library>, deps': seq<Library>, self: nat, w: seq<Prefab>)
    requires SameSet(deps, deps') && self < |deps|
    ensures PrefabsLinked(deps', self, w) <==> PrefabsLinked(deps, self, w)
  {
    hide SameSet, ChildLinked, Concat, IdParts;
    SameSize(deps, deps');
    SameParts(deps, deps', Kind.Sound);
    forall ch ensures ChildLinked(deps', self, ch) <==> ChildLinked(deps, self, ch) {
      SameChildLinked(deps, deps', self, ch);
    }
    forall cues ensures CuesLinked(deps', cues) <==> CuesLinked(deps, cues) {}
  }

  ghost predicate PrefabsLinkable(deps: seq<Library>) {
    (exists k :: 0 <= k < |deps| && |deps[k].content.prefabs| > 0) ==>
      FitTogether(deps) && forall k: nat :: k < |deps| ==> PrefabsResolve(deps, k)
  }

  ghost predicate AllPrefabsLinked(deps: seq<Library>) {
    forall k: nat :: k < |deps| ==> PrefabsLinked(deps, k, deps[k].content.prefabs)
  }

  /** Links every library's prefabs, from its own point of view, and changes nothing else. */
  method LinkPrefabs(loaded: PackageSet<Content>) returns (ok: bool)
    requires WellLoaded(loaded.root, loaded.deps)
    modifies loaded`deps
    ensures OnlyPrefabs(old(loaded.deps), loaded.deps)
    ensures ok <==> PrefabsLinkable(old(loaded.deps))
    ensures ok ==> AllPrefabsLinked(loaded.deps)
  {
    hide OnlyPrefabs, SameSet, WellLoaded, FitTogether, PrefabsResolve, PrefabsLinked, Imported, Concat, SamePrefabs;
    ghost var was := loaded.deps;
    OnlyPrefabsItself(was);
    var any := false;
    for k := 0 to |loaded.deps|
      invariant any <==> exists j :: 0 <= j < k && |loaded.deps[j].content.prefabs| > 0
    {
      any := any || |loaded.deps[k].content.prefabs| > 0;
    }
    if !any {
      NoPrefabs(loaded.deps);
      return true;
    }
    var rs := new ResourceSet();
    for k := 0 to |loaded.deps|
      invariant OnlyPrefabs(was, loaded.deps) && WellLoaded(loaded.root, loaded.deps) && |loaded.deps| == |was|
      invariant forall j: nat :: j < k ==>
        PrefabsResolve(was, j) && PrefabsLinked(loaded.deps, j, loaded.deps[j].content.prefabs)
      invariant forall j: nat :: k <= j < |was| ==> loaded.deps[j] == was[j]
      invariant (exists j :: 0 <= j < k && |was[j].content.prefabs| > 0) ==> FitTogether(was)
    {
      if |loaded.deps[k].content.prefabs| == 0 {
        NoneHere(was, loaded.deps, k);
      } else {
        rs.Init();
        OnlyPrefabsSame(was, loaded.deps);
        var filled := SetResourcesFor(loaded.root, loaded.deps, k, rs);
        SameFit(was, loaded.deps);
        if !filled {
          return false;
        }
        var good, w := LinkLibraryPrefabs(loaded.root, loaded.deps, k, rs);
        SamePrefabsResolve(was, loaded.deps, k);
        PrefabStep(loaded.root, was, loaded.deps, k, w, good);
        loaded.deps := loaded.deps[k := loaded.deps[k].(content := loaded.deps[k].content.(prefabs := w))];
        if !good {
          return false;
        }
      }
    }
    ok := true;
  }

  lemma NoPrefabs(deps: seq<Library>)
    requires forall k :: 0 <= k < |deps| ==> |deps[k].content.prefabs| == 0
    ensures AllPrefabsLinked(deps)
  {}

  lemma NoneHere(was: seq<Library>, now: seq<Library>, k: nat)
    requires k < |was| == |now| && now[k] == was[k] && |now[k].content.prefabs| == 0
    ensures PrefabsResolve(was, k) && PrefabsLinked(now, k, now[k].content.prefabs)
  {}

  lemma PrefabStep(root: Decl, was: seq<Library>, now: seq<Library>, k: nat, w: seq<Prefab>, good: bool)
    requires OnlyPrefabs(was, now) && WellLoaded(root, now) && k < |now| && now[k] == was[k]
    requires SamePrefabs(now[k].content.prefabs, w) && (good ==> PrefabsLinked(now, k, w))
    requires forall j: nat :: j < k ==> PrefabsLinked(now, j, now[j].content.prefabs)
    ensures var next := now[k := now[k].(content := now[k].content.(prefabs := w))];
      && OnlyPrefabs(was, next) && WellLoaded(root, next)
      && (forall j: nat :: j < k ==> PrefabsLinked(next, j, next[j].content.prefabs))
      && (good ==> PrefabsLinked(next, k, next[k].content.prefabs))
  {
    hide OnlyPrefabs, SameSet, WellLoaded, PrefabsLinked, SamePrefabs;
    var next := now[k := now[k].(content := now[k].content.(prefabs := w))];
    OnlyPrefabsStep(was, now, k, w);
    OnlyPrefabsSame(now, next);
    SameWellLoaded(root, now, next);
    forall j: nat | j < k ensures PrefabsLinked(next, j, next[j].content.prefabs) {
      SamePrefabsLinked(now, next, j, next[j].content.prefabs);
    }
    SamePrefabsLinked(now, next, k, w);
  }

  // ----- a set has one canonical order

  lemma FirstIsLeast(w: seq<string>, x: string)
    requires Ascending(w) && x in w
    ensures w[0] == x || Less(w[0], x)
  {}

  lemma {:induction false} AscendingOnce(w: seq<string>, v: seq<string>)
    requires Ascending(w) && Ascending(v) && forall x :: x in w <==> x in v
    ensures w == v
  {
    hide Less;
    assert w != [] ==> w[0] in v;
    assert v != [] ==> v[0] in w;
    if w != [] {
      FirstIsLeast(w, v[0]);
      FirstIsLeast(v, w[0]);
      LessTotal(w[0], v[0]);
      forall x ensures x in w[1..] <==> x in v[1..] {
        RestHas(w, x);
        RestHas(v, x);
      }
      AscendingOnce(w[1..], v[1..]);
      assert w == [w[0]] + w[1..] && v == [v[0]] + v[1..];
    }
  }

  lemma RestHas(w: seq<string>, x: string)
    requires Ascending(w) && w != []
    ensures x in w[1..] <==> x in w && x != w[0]
  {
    hide Less;
    forall i | 0 < i < |w| ensures w[i] != w[0] {
      LessTotal(w[0], w[0]);
      assert Less(w[0], w[i]);
    }
    assert w == [w[0]] + w[1..];
  }

  /** A root and its sources have at most one loaded set. */
  lemma CompleteOnce(root: Decl, src: Source<Content>, a: seq<Library>, b: seq<Library>)
    requires Complete(root, src, a) && Complete(root, src, b)
    ensures a == b
  {
    hide Less, Near, Requirements, AllImportsOffered;
    AscendingOnce(Names(a), Names(b));
    assert |a| == |Names(a)| == |Names(b)| == |b|;
    forall k | 0 <= k < |a| ensures a[k] == b[k] {
      assert Names(a)[k] == Names(b)[k];
      assert FromSource(src, a[k]) && FromSource(src, b[k]);
    }
  }

  // ----- the load from start to end

  /** What reading a library's file has checked: it offers exactly what it holds, and its models draw with slots they
      have. */
  ghost predicate GoodSource(src: Source<Content>) {
    forall id :: id in src && src[id].Library? ==> GoodLibrary(Dep(src[id].decl, false, src[id].content))
  }

  ghost predicate GoodLibrary(d: Library) {
    Consistent(d) && forall i :: 0 <= i < |d.content.models| ==> GroupsInSlots(d.content.models[i])
  }

  lemma GoodEither(d: Library, direct: bool)
    requires GoodLibrary(d)
    ensures GoodLibrary(d.(direct := direct))
  {
    hide HasKind, Offers, Ids;
    var d' := d.(direct := direct);
    forall i | 0 <= i < |d'.decl.offers| ensures OfferHeld(d', d'.decl.offers[i]) {
      assert OfferHeld(d, d.decl.offers[i]);
    }
  }

  lemma CompleteIsWellLoaded(root: Decl, src: Source<Content>, deps: seq<Library>)
    requires GoodSource(src) && Complete(root, src, deps)
    ensures WellLoaded(root, deps) && forall k :: 0 <= k < |deps| ==> GoodLibrary(deps[k])
  {
    hide Near, Requirements, NeedsLoaded, Consistent, GroupsInSlots, AllImportsOffered;
    forall k | 0 <= k < |deps|
      ensures GoodLibrary(deps[k]) && NeedsLoaded(root, deps, deps[k].decl.needs)
    {
      assert deps[k] in deps && FromSource(src, deps[k]);
      GoodEither(Dep(deps[k].decl, false, deps[k].content), deps[k].direct);
      ClosedNeedsLoaded(root, src, deps, k + 1);
      assert DeclAt(root, deps, k + 1) == deps[k].decl;
    }
  }

  /** All references of the set resolve. */
  ghost predicate Links(deps: seq<Library>) {
    Linkable(deps) && PrefabsLinkable(deps)
  }

  ghost predicate SourceLinks(root: Decl, src: Source<Content>) {
    forall deps :: Complete(root, src, deps) ==> Links(deps)
  }

  /** The one set, with every index filled in right. */
  ghost predicate LoadedWhole(root: Decl, src: Source<Content>, deps: seq<Library>) {
    && (exists was :: Complete(root, src, was) && SameSet(was, deps))
    && WellLoaded(root, deps) && Linked(deps) && AllPrefabsLinked(deps)
  }

  datatype LoadResult = Refused(why: Outcome) | AssetsUnlinked | PrefabsUnlinked | Ready

  lemma SamePrefabsLinkable(deps: seq<Library>, deps': seq<Library>)
    requires SameSet(deps, deps')
    ensures PrefabsLinkable(deps') <==> PrefabsLinkable(deps)
  {
    hide SameSet, FitTogether, PrefabsResolve;
    SameSize(deps, deps');
    SameFit(deps, deps');
    forall k: nat | k < |deps|
      ensures |deps'[k].content.prefabs| == |deps[k].content.prefabs|
      ensures PrefabsResolve(deps', k) <==> PrefabsResolve(deps, k)
    {
      SamePrefabCount(deps, deps', k);
      SamePrefabsResolve(deps, deps', k);
    }
  }

  lemma SamePrefabCount(deps: seq<Library>, deps': seq<Library>, k: nat)
    requires SameSet(deps, deps') && k < |deps|
    ensures |deps'[k].content.prefabs| == |deps[k].content.prefabs|
  {
    assert SameLibrary(deps[k], deps'[k]);
  }

  /** Linking prefabs leaves the assets' links as they are. */
  lemma OnlyPrefabsLinked(deps: seq<Library>, deps': seq<Library>)
    requires OnlyPrefabs(deps, deps') && Linked(deps)
    ensures Linked(deps')
  {
    hide SamePrefabs, SameSet, NamesIt;
    OnlyPrefabsSame(deps, deps');
    forall k | 0 <= k < |deps'| ensures LibraryLinked(deps', deps'[k].content) {
      assert PrefabsOnly(deps[k], deps'[k]) && LibraryLinked(deps, deps[k].content);
      SameLinked(deps, deps', deps[k].content);
    }
  }

  lemma SameSetThen(a: seq<Library>, b: seq<Library>, c: seq<Library>)
    requires SameSet(a, b) && OnlyPrefabs(b, c)
    ensures SameSet(a, c)
  {
    forall k | 0 <= k < |a| ensures SameLibrary(a[k], c[k]) {
      assert SameLibrary(a[k], b[k]) && PrefabsOnly(b[k], c[k]);
      PrefabsThen(a[k].content.prefabs, b[k].content.prefabs, c[k].content.prefabs);
    }
  }

  /** Loads everything the root requires and links it, or holds nothing: exactly when the packages are fit, each is
      found by a short path, and in the one set they make every reference resolves. */
  method LoadSet(loaded: PackageSet<Content>, root: Decl, src: Source<Content>) returns (r: LoadResult)
    requires GoodSource(src)
    modifies loaded
    ensures r.Ready? <==> Fit(root, src) && Shallow(root, src) && SourceLinks(root, src)
    ensures r.Ready? ==> loaded.root == root && LoadedWhole(root, src, loaded.deps)
    ensures r.Refused? ==> !r.why.Loaded? && Justified(root, src, r.why)
    ensures !r.Ready? ==> loaded.deps == []
  {
    hide Complete, Justified, Fit, Shallow, SameSet, WellLoaded, Linkable, Linked, PrefabsLinkable, AllPrefabsLinked;
    hide OnlyPrefabs, GoodSource, GoodLibrary;
    var found := loaded.Load(root, src);
    ghost var was := loaded.deps;
    LoadsExactlyWhen(root, src, found, was);
    if !found.Loaded? {
      return Refused(found);
    }
    CompleteIsWellLoaded(root, src, was);
    forall deps | Complete(root, src, deps) ensures deps == was {
      CompleteOnce(root, src, deps, was);
    }
    var linked := LinkAssets(loaded);
    ghost var assets := loaded.deps;
    SameWellLoaded(root, was, assets);
    if !linked {
      loaded.Free();
      assert !Links(was);
      return AssetsUnlinked;
    }
    SamePrefabsLinkable(was, assets);
    linked := LinkPrefabs(loaded);
    if !linked {
      loaded.Free();
      assert !Links(was);
      return PrefabsUnlinked;
    }
    SameSetThen(was, assets, loaded.deps);
    SameWellLoaded(root, was, loaded.deps);
    OnlyPrefabsLinked(assets, loaded.deps);
    r := Ready;
  }

  // ----- ... and the move

  lemma NamedModel(deps: seq<Library>, n: nat, id: string)
    requires NamesIt(deps, Kind.Model, n, id)
    ensures n < |TakenModels(deps)| && TakenModels(deps)[n].id == id
  {
    hide Concat, Start, IdParts, ModelParts, ModelIds, Stamped;
    var ids, parts := IdParts(deps, Kind.Model), ModelParts(deps);
    var k, i := Locate(ids, n);
    SameStarts(ids, parts, k);
    StampedAt(parts, StampModel, |deps|, k, i);
  }

  lemma NamedSound(deps: seq<Library>, n: nat, id: string)
    requires NamesIt(deps, Kind.Sound, n, id)
    ensures n < |TakenSounds(deps)| && TakenSounds(deps)[n].id == id
  {
    hide Concat, Start, IdParts, SoundParts, SoundIds, Stamped;
    var ids, parts := IdParts(deps, Kind.Sound), SoundParts(deps);
    var k, i := Locate(ids, n);
    SameStarts(ids, parts, k);
    StampedAt(parts, StampSound, |deps|, k, i);
  }

  lemma LoadedInSlots(root: Decl, src: Source<Content>, deps: seq<Library>)
    requires GoodSource(src) && LoadedWhole(root, src, deps)
    ensures AllInSlots(deps)
  {
    hide WellLoaded, Linked, AllPrefabsLinked, GoodSource, Stamped, Complete, Concat, Start, ModelParts;
    hide GoodLibrary, SameLibrary;
    var was: seq<Library> :| Complete(root, src, was) && SameSet(was, deps);
    CompleteIsWellLoaded(root, src, was);
    forall i | 0 <= i < |TakenModels(deps)| ensures GroupsInSlots(TakenModels(deps)[i]) {
      var parts := ModelParts(deps);
      StampedLength(parts, StampModel, |deps|);
      ConcatLength(parts);
      var k, j := Locate(parts, i);
      StampedAt(parts, StampModel, |deps|, k, j);
      assert SameLibrary(was[k], deps[k]) && GoodLibrary(was[k]);
      SameSlots(was[k], deps[k], j);
    }
  }

  lemma SameSlots(d: Library, d': Library, j: nat)
    requires SameLibrary(d, d') && GoodLibrary(d) && j < |d'.content.models|
    ensures GroupsInSlots(d'.content.models[j])
  {
    hide Consistent, SamePrefabs;
    assert GroupsInSlots(d.content.models[j]);
  }

  // What the sources' libraries hold, as they were read.

  ghost predicate HasTexture(src: Source<Content>, t: Texture) {
    exists id :: id in src && src[id].Library? && t in src[id].content.textures
  }

  ghost predicate HasMaterial(src: Source<Content>, m: Material) {
    exists id :: id in src && src[id].Library? && m in src[id].content.materials
  }

  ghost predicate HasModel(src: Source<Content>, m: Model) {
    exists id :: id in src && src[id].Library? && m in src[id].content.models
  }

  ghost predicate HasSound(src: Source<Content>, s: Sound) {
    exists id :: id in src && src[id].Library? && s in src[id].content.sounds
  }

  /** The reference's sound plays the clip a library has under that name. */
  ghost predicate SoundServed(src: Source<Content>, out: Table, ref: string, n: nat) {
    ref != "" ==>
      0 < n <= |out.sounds| && exists s :: HasSound(src, s) && s.id == ref && out.sounds[n - 1].clip == s.clip
  }

  /** A child of a library's prefab draws the model and plays the sound it names. */
  ghost predicate ChildServed(src: Source<Content>, out: Table, ch: PrefabChild) {
    && (ch.modelRef != "" ==> 0 < ch.model <= |out.models| && out.models[ch.model - 1].id == ch.modelRef)
    && SoundServed(src, out, ch.soundRef, ch.sound)
  }

  ghost predicate PrefabServed(src: Source<Content>, out: Table, p: Prefab) {
    && (forall c :: 0 <= c < |p.children| ==> ChildServed(src, out, p.children[c]))
    && (forall b, a :: 0 <= b < |p.bindings| && 0 <= a < |p.bindings[b]| ==>
         SoundServed(src, out, p.bindings[b][a].soundRef, p.bindings[b][a].sound))
  }

  /** Every slot of every model draws the texture its named material names, as the sources hold them, and every prefab
      is served. */
  ghost predicate Served(src: Source<Content>, deps: seq<Library>, out: Table) {
    && (forall n :: 0 <= n < |out.models| ==> ModelServed(src, out.models[n]))
    && (forall k, i :: 0 <= k < |deps| && 0 <= i < |deps[k].content.prefabs| ==>
         PrefabServed(src, out, deps[k].content.prefabs[i]))
  }

  ghost predicate ModelServed(src: Source<Content>, model: Model) {
    && (exists m :: HasModel(src, m) && Reworked(m, model))
    && |model.skins| == |model.slotRefs|
    && (forall s :: 0 <= s < |model.slotRefs| ==> SlotServed(src, model, s))
    && (forall g :: 0 <= g < |model.groups| ==> GroupServed(src, model, model.groups[g]))
  }

  /** One model, but for its provider, its links and what they give it. */
  ghost predicate Reworked(m: Model, m': Model) {
    && m' == m.(provider := m'.provider, slots := m'.slots, skins := m'.skins, groups := m'.groups)
    && |m'.groups| == |m.groups| && forall g :: 0 <= g < |m.groups| ==> m'.groups[g].slot == m.groups[g].slot
  }

  /** The slot has the size and the pixels of the texture that its material names, untinted. */
  ghost predicate SlotServed(src: Source<Content>, model: Model, s: nat)
    requires s < |model.slotRefs| && |model.skins| == |model.slotRefs|
  {
    exists m, t :: HasMaterial(src, m) && HasTexture(src, t) && Drawn(model, s, m, t)
  }

  /** The group looks as the material of its slot says. */
  ghost predicate GroupServed(src: Source<Content>, model: Model, g: Group) {
    g.slot < |model.slotRefs| && exists m :: HasMaterial(src, m) && m.id == model.slotRefs[g.slot] && g.look == m.look
  }

  /** The loaded set's libraries are the sources', but for links. */
  ghost predicate Sourced(src: Source<Content>, deps: seq<Library>) {
    forall k :: 0 <= k < |deps| ==> SourcedLibrary(src, deps[k])
  }

  ghost predicate SourcedLibrary(src: Source<Content>, d: Library) {
    d.decl.id in src && src[d.decl.id].Library? && SameButLinks(src[d.decl.id].content, d.content)
  }

  lemma LoadedIsSourced(root: Decl, src: Source<Content>, deps: seq<Library>)
    requires LoadedWhole(root, src, deps)
    ensures Sourced(src, deps)
  {
    hide WellLoaded, Linked, AllPrefabsLinked, SameButLinks, Near, Requirements, AllImportsOffered;
    var was: seq<Library> :| Complete(root, src, was) && SameSet(was, deps);
    forall k | 0 <= k < |deps| ensures SourcedLibrary(src, deps[k]) {
      assert SameLibrary(was[k], deps[k]);
      assert was[k] in was && FromSource(src, was[k]);
    }
  }

  /** Every entry of the table was a library's. */
  lemma TextureOrigin(src: Source<Content>, deps: seq<Library>, w: seq<Texture>, n: nat) returns (t: Texture)
    requires Sourced(src, deps) && TexturesMoved(deps, w) && n < |w|
    ensures HasTexture(src, t) && w[n] == t.(provider := w[n].provider)
  {
    hide Concat, Start, SamePrefabs;
    var parts := TextureParts(deps);
    ConcatLength(parts);
    var k, i := Locate(parts, n);
    assert SourcedLibrary(src, deps[k]);
    t := deps[k].content.textures[i];
    assert TextureAt(w, Start(parts, k) + i, t.(provider := k + 1));
    assert t in src[deps[k].decl.id].content.textures;
  }

  lemma MaterialOrigin(src: Source<Content>, deps: seq<Library>, w: seq<Material>, n: nat) returns (m: Material)
    requires Sourced(src, deps) && MaterialsMoved(deps, w) && n < |w|
    ensures HasMaterial(src, m) && w[n] == m.(provider := w[n].provider, texture := w[n].texture)
  {
    hide Concat, Start, SamePrefabs;
    var parts := MaterialParts(deps);
    ConcatLength(parts);
    var k, i := Locate(parts, n);
    assert SourcedLibrary(src, deps[k]);
    m := src[deps[k].decl.id].content.materials[i];
    assert MaterialAt(w, Start(parts, k) + i, deps[k].content.materials[i].(provider := k + 1));
    assert m in src[deps[k].decl.id].content.materials;
  }

  lemma SoundOrigin(src: Source<Content>, deps: seq<Library>, w: seq<Sound>, n: nat) returns (s: Sound)
    requires Sourced(src, deps) && SoundsMoved(deps, w) && n < |w|
    ensures HasSound(src, s) && w[n] == s.(provider := w[n].provider)
  {
    hide Concat, Start, SamePrefabs;
    var parts := SoundParts(deps);
    ConcatLength(parts);
    var k, i := Locate(parts, n);
    assert SourcedLibrary(src, deps[k]);
    s := deps[k].content.sounds[i];
    assert SoundAt(w, Start(parts, k) + i, s.(provider := k + 1));
    assert s in src[deps[k].decl.id].content.sounds;
  }

  lemma ModelOrigin(src: Source<Content>, deps: seq<Library>, out: Table, n: nat) returns (m: Model)
    requires Sourced(src, deps) && ModelsMoved(deps, out) && n < |out.models|
    ensures HasModel(src, m) && Reworked(m, out.models[n])
  {
    hide Concat, Start, SamePrefabs;
    var parts := ModelParts(deps);
    ConcatLength(parts);
    var k, i := Locate(parts, n);
    assert SourcedLibrary(src, deps[k]);
    m := src[deps[k].decl.id].content.models[i];
    var linked := deps[k].content.models[i].(provider := k + 1);
    assert ModelAt(out, Start(parts, k) + i, linked);
    assert m in src[deps[k].decl.id].content.models;
    forall g | 0 <= g < |m.groups| ensures out.models[n].groups[g].slot == m.groups[g].slot {
      assert LookAt(out, linked.slots[linked.groups[g].slot], linked.groups[g], out.models[n].groups[g]);
    }
  }

  lemma PointServed(src: Source<Content>, deps: seq<Library>, out: Table, ref: string, n: nat)
    requires AllInSlots(deps) && AllBindable(deps) && Takes(deps, out) && Sourced(src, deps) && Moved(deps, out)
    ensures Points(deps, Kind.Model, ref, n) && ref != "" ==> 0 < n <= |out.models| && out.models[n - 1].id == ref
    ensures Points(deps, Kind.Sound, ref, n) ==> SoundServed(src, out, ref, n)
  {
    hide NamesIt, TakenModels, TakenSounds, TakenTextures, TakenMaterials, HasSound, Sourced;
    hide TexturesMoved, MaterialsMoved, SoundsMoved, ModelsMoved;
    if ref != "" && Points(deps, Kind.Model, ref, n) {
      NamedModel(deps, n - 1, ref);
      assert Bound(TakenModels(deps)[n - 1], out.models[n - 1], out.materials, out.textures);
    }
    if ref != "" && Points(deps, Kind.Sound, ref, n) {
      NamedSound(deps, n - 1, ref);
      var s := SoundOrigin(src, deps, out.sounds, n - 1);
      assert HasSound(src, s) && s.id == ref && out.sounds[n - 1].clip == s.clip;
    }
  }

  lemma PrefabIsServed(src: Source<Content>, deps: seq<Library>, out: Table, k: nat, p: Prefab)
    requires AllInSlots(deps) && AllBindable(deps) && Takes(deps, out) && Sourced(src, deps) && Moved(deps, out)
    requires k < |deps| && PrefabLinked(deps, k, p)
    ensures PrefabServed(src, out, p)
  {
    hide Points, AllInSlots, AllBindable, Takes, ScriptNamed, Sourced, Moved, SoundServed;
    forall c | 0 <= c < |p.children| ensures ChildServed(src, out, p.children[c]) {
      assert ChildLinked(deps, k, p.children[c]);
      PointServed(src, deps, out, p.children[c].modelRef, p.children[c].model);
      PointServed(src, deps, out, p.children[c].soundRef, p.children[c].sound);
    }
    forall b, a | 0 <= b < |p.bindings| && 0 <= a < |p.bindings[b]|
      ensures SoundServed(src, out, p.bindings[b][a].soundRef, p.bindings[b][a].sound)
    {
      assert CuesLinked(deps, p.bindings[b]);
      PointServed(src, deps, out, p.bindings[b][a].soundRef, p.bindings[b][a].sound);
    }
  }

  lemma SlotIsServed(src: Source<Content>, deps: seq<Library>, out: Table, n: nat, s: nat)
    requires Linked(deps) && AllInSlots(deps) && AllBindable(deps) && Takes(deps, out)
    requires Sourced(src, deps) && TexturesMoved(deps, out.textures) && MaterialsMoved(deps, out.materials)
    requires n < |out.models| && s < |out.models[n].slotRefs| && |out.models[n].skins| == |out.models[n].slotRefs|
    ensures SlotServed(src, out.models[n], s)
  {
    hide Linked, AllInSlots, AllBindable, Takes, Sourced, TexturesMoved, MaterialsMoved, HasMaterial, HasTexture;
    TakenModelDraws(deps, out, n, s);
    var m, t :| m in out.materials && t in out.textures && Drawn(out.models[n], s, m, t);
    var i: nat :| i < |out.materials| && out.materials[i] == m;
    var j: nat :| j < |out.textures| && out.textures[j] == t;
    var m' := MaterialOrigin(src, deps, out.materials, i);
    var t' := TextureOrigin(src, deps, out.textures, j);
    assert HasMaterial(src, m') && HasTexture(src, t') && Drawn(out.models[n], s, m', t');
  }

  lemma GroupIsServed(src: Source<Content>, deps: seq<Library>, out: Table, n: nat, g: nat)
    requires Linked(deps) && AllInSlots(deps) && AllBindable(deps) && Takes(deps, out)
    requires Sourced(src, deps) && MaterialsMoved(deps, out.materials)
    requires n < |out.models| && g < |out.models[n].groups|
    ensures GroupServed(src, out.models[n], out.models[n].groups[g])
  {
    hide Linked, Sourced, MaterialsMoved, HasMaterial, TakenMaterials, TakenModels, TakenTextures;
    var model := TakenModels(deps)[n];
    assert GroupsInSlots(model) && Bound(model, out.models[n], out.materials, out.textures);
    var slot := model.groups[g].slot;
    SlotFindsMaterial(deps, n, slot);
    var m := MaterialOrigin(src, deps, out.materials, model.slots[slot]);
    assert HasMaterial(src, m) && m.id == out.models[n].slotRefs[slot] && out.models[n].groups[g].look == m.look;
  }

  lemma ModelIsServed(src: Source<Content>, deps: seq<Library>, out: Table, n: nat)
    requires Linked(deps) && AllInSlots(deps) && AllBindable(deps) && Takes(deps, out)
    requires Sourced(src, deps) && Moved(deps, out) && n < |out.models|
    ensures ModelServed(src, out.models[n])
  {
    hide Linked, AllInSlots, AllBindable, Takes, Sourced, TexturesMoved, MaterialsMoved, SoundsMoved, ModelsMoved;
    hide HasModel, Reworked, SlotServed, GroupServed;
    var m := ModelOrigin(src, deps, out, n);
    assert HasModel(src, m) && Reworked(m, out.models[n]);
    SkinsMatch(deps, out, n);
    forall s | 0 <= s < |out.models[n].slotRefs| ensures SlotServed(src, out.models[n], s) {
      SlotIsServed(src, deps, out, n, s);
    }
    forall g | 0 <= g < |out.models[n].groups| ensures GroupServed(src, out.models[n], out.models[n].groups[g]) {
      GroupIsServed(src, deps, out, n, g);
    }
  }

  lemma TakenIsServed(src: Source<Content>, deps: seq<Library>, out: Table)
    requires Linked(deps) && AllPrefabsLinked(deps) && AllInSlots(deps) && AllBindable(deps) && Takes(deps, out)
    requires Sourced(src, deps) && Moved(deps, out)
    ensures Served(src, deps, out)
  {
    hide Linked, AllInSlots, AllBindable, Takes, PrefabLinked, PrefabServed, Sourced, Moved, ModelServed;
    forall n | 0 <= n < |out.models| ensures ModelServed(src, out.models[n]) {
      ModelIsServed(src, deps, out, n);
    }
    forall k, i | 0 <= k < |deps| && 0 <= i < |deps[k].content.prefabs|
      ensures PrefabServed(src, out, deps[k].content.prefabs[i])
    {
      assert PrefabsLinked(deps, k, deps[k].content.prefabs);
      PrefabIsServed(src, deps, out, k, deps[k].content.prefabs[i]);
    }
  }

  lemma SkinsMatch(deps: seq<Library>, out: Table, n: nat)
    requires Linked(deps) && AllInSlots(deps) && AllBindable(deps) && Takes(deps, out) && n < |out.models|
    ensures |out.models[n].skins| == |out.models[n].slotRefs|
  {
    hide Linked, TakenMaterials, TakenModels, TakenTextures;
    assert Bound(TakenModels(deps)[n], out.models[n], out.materials, out.textures);
    SlotsAreRefs(deps, n);
  }

  lemma HandedServed(src: Source<Content>, was: seq<Library>, now: seq<Library>, out: Table)
    requires Served(src, was, out) && |now| == |was| && forall k :: 0 <= k < |now| ==> HandedOver(was[k], now[k])
    ensures Served(src, now, out)
  {
    hide ModelServed, PrefabServed;
    forall k | 0 <= k < |now| ensures now[k].content.prefabs == was[k].content.prefabs {
      assert HandedOver(was[k], now[k]);
    }
  }

  /** The one set's assets, linked, are the table's, and its scripts and prefabs are still the set's. */
  ghost predicate TakenFrom(root: Decl, src: Source<Content>, deps: seq<Library>, out: Table) {
    exists whole :: LoadedWhole(root, src, whole) && Moved(whole, out) && AllHandedOver(whole, deps)
  }

  ghost predicate AllHandedOver(was: seq<Library>, now: seq<Library>) {
    |now| == |was| && forall k :: 0 <= k < |now| ==> HandedOver(was[k], now[k])
  }

  /** Loaded, linked and moved: the move never refuses a loaded set, and afterwards everything drawn or played is what
      was named, as the sources hold it. */
  method LoadAndTake(loaded: PackageSet<Content>, root: Decl, src: Source<Content>) returns (r: LoadResult, out: Table)
    requires GoodSource(src)
    modifies loaded
    ensures r.Ready? <==> Fit(root, src) && Shallow(root, src) && SourceLinks(root, src)
    ensures r.Ready? ==> TakenFrom(root, src, loaded.deps, out) && Served(src, loaded.deps, out)
    ensures !r.Ready? ==> loaded.deps == [] && out == Table([], [], [], [])
  {
    hide GoodSource, Fit, Shallow, SourceLinks, Linked, AllPrefabsLinked, WellLoaded, Served, AllInSlots, AllBindable;
    hide Takes, HandedOver, Complete, Moved, Sourced, SameSet;
    out := Table([], [], [], []);
    r := LoadSet(loaded, root, src);
    if r.Ready? {
      ghost var whole := loaded.deps;
      LoadedInSlots(root, src, whole);
      LoadedIsSourced(root, src, whole);
      LinkedBinds(whole);
      var taken;
      taken, out := TakeAssets(loaded);
      TakenIsServed(src, whole, out);
      HandedServed(src, whole, loaded.deps, out);
      assert AllHandedOver(whole, loaded.deps);
    }
  }
}
