/** Resource, package and local IDs: their grammars, and that every accepted text has one reading. */
module ResourceIds {
  import opened Seqs
  import opened Texts

  const ID_MAX := 96
  const NAMESPACE_MAX := 40
  const TYPE_MAX := 24
  const NAME_MAX := 48
  const PACKAGE_ID_MAX := 64
  const PACKAGE_SEGMENTS := 8
  const LOCAL_MAX := 23

  datatype Kind =
    | World | Entity | Mover | Script | Character | Weapon | Sounds
    | Model | Material | Texture | Sound | Animation | Prefab | Ruleset

  function Kinds(): seq<Kind> {
    [World, Entity, Mover, Script, Character, Weapon, Sounds, Model, Material, Texture, Sound, Animation, Prefab,
      Ruleset]
  }

  function KindName(k: Kind): string {
    match k
    case World => "world"
    case Entity => "entity"
    case Mover => "mover"
    case Script => "script"
    case Character => "character"
    case Weapon => "weapon"
    case Sounds => "sounds"
    case Model => "model"
    case Material => "material"
    case Texture => "texture"
    case Sound => "sound"
    case Animation => "animation"
    case Prefab => "prefab"
    case Ruleset => "ruleset"
  }

  predicate Supported(k: Kind) { !k.Animation? && !k.Ruleset? }

  /** The registry, in order; two of its types are reserved. */
  lemma Registry()
    ensures Registered(0, ["world", "entity", "mover", "script", "character", "weapon", "sounds"])
    ensures Registered(7, ["model", "material", "texture", "sound", "animation", "prefab", "ruleset"])
    ensures forall k :: Supported(k) <==> k !in {Animation, Ruleset}
  {}

  predicate Registered(first: nat, names: seq<string>) {
    |names| == 7 && first + 7 <= |Kinds()| && forall i :: 0 <= i < 7 ==> KindName(Kinds()[first + i]) == names[i]
  }

  predicate Lower(c: char) { 'a' <= c <= 'z' }

  predicate Digit(c: char) { '0' <= c <= '9' }

  /** [a-z][a-z0-9_]* of at most max bytes. */
  predicate Segment(s: string, max: nat) {
    0 < |s| <= max && Lower(s[0]) && forall i :: 0 < i < |s| ==> Lower(s[i]) || Digit(s[i]) || s[i] == '_'
  }

  method IsSegment(s: string, max: nat) returns (ok: bool)
    ensures ok <==> Segment(s, max)
  {
    if |s| == 0 || |s| > max {
      return false;
    }
    for i := 0 to |s|
      invariant forall j :: 0 <= j < i ==> Lower(s[j]) || (j > 0 && (Digit(s[j]) || s[j] == '_'))
    {
      if !('a' <= s[i] <= 'z' || (i > 0 && ('0' <= s[i] <= '9' || s[i] == '_'))) {
        return false;
      }
    }
    ok := true;
  }

  // ----- resource IDs

  function Compose(namespace: string, kind: string, name: string): string {
    namespace + ":" + kind + "/" + name
  }

  ghost predicate Reads(text: string, namespace: string, kind: string, name: string) {
    && text == Compose(namespace, kind, name)
    && Segment(namespace, NAMESPACE_MAX) && Segment(kind, TYPE_MAX) && Segment(name, NAME_MAX)
  }

  ghost predicate WellFormed(text: string) {
    |text| <= ID_MAX && exists ns, k, n :: Reads(text, ns, k, n)
  }

  datatype Parsed =
    | Malformed
    | UnknownType(namespaceLength: nat, typeLength: nat, nameLength: nat)
    | ReservedType(namespaceLength: nat, typeLength: nat, nameLength: nat, kind: Kind)
    | Good(namespaceLength: nat, typeLength: nat, nameLength: nat, kind: Kind)
  {
    predicate Spans(text: string, namespace: string, kind: string, name: string)
      requires !Malformed?
    {
      && |text| == namespaceLength + typeLength + nameLength + 2
      && namespace == text[..namespaceLength]
      && kind == text[namespaceLength + 1..][..typeLength]
      && name == text[namespaceLength + 1 + typeLength + 1..]
    }
  }

  lemma SegmentHasNo(s: string, max: nat, c: char)
    requires Segment(s, max) && (c == ':' || c == '/' || c == '.')
    ensures c !in s
  {
    forall i | 0 <= i < |s| ensures s[i] != c {}
  }

  /** A text has one reading. */
  lemma ReadingUnique(ns: string, k: string, n: string, ns': string, k': string, n': string)
    requires ':' !in ns && ':' !in ns' && '/' !in k && '/' !in k'
    requires Compose(ns, k, n) == Compose(ns', k', n')
    ensures ns == ns' && k == k' && n == n'
  {
    FirstPiece(':', ns, k + "/" + n, ns', k' + "/" + n', Compose(ns, k, n));
    FirstPiece('/', k, n, k', n', k + "/" + n);
  }

  lemma FirstPiece(c: char, head: string, tail: string, head': string, tail': string, s: string)
    requires c !in head && c !in head' && s == head + [c] + tail == head' + [c] + tail'
    ensures head == head' && tail == tail'
  {
    FirstPlace(c, head, tail);
    FirstPlace(c, head', tail');
    assert |head| == |head'|;
    assert head == s[..|head|] && head' == s[..|head'|];
    assert tail == s[|head| + 1..] && tail' == s[|head'| + 1..];
  }

  lemma FirstPlace(c: char, head: string, tail: string)
    requires c !in head
    ensures var s := head + [c] + tail; s[|head|] == c && forall i :: 0 <= i < |head| ==> s[i] != c
  {}

  method FindKind(name: string) returns (found: bool, kind: Kind)
    ensures found <==> exists k :: KindName(k) == name
    ensures found ==> KindName(kind) == name
  {
    kind := World;
    var all := Kinds();
    for i := 0 to |all|
      invariant forall j :: 0 <= j < i ==> KindName(all[j]) != name
    {
      if KindName(all[i]) == name {
        return true, all[i];
      }
    }
    forall k ensures KindName(k) != name {
      assert k in all by { EveryKind(k); }
    }
    found := false;
  }

  lemma EveryKind(k: Kind)
    ensures k in Kinds()
  {
    var all := Kinds();
    match k
    case World => assert all[0] == k;
    case Entity => assert all[1] == k;
    case Mover => assert all[2] == k;
    case Script => assert all[3] == k;
    case Character => assert all[4] == k;
    case Weapon => assert all[5] == k;
    case Sounds => assert all[6] == k;
    case Model => assert all[7] == k;
    case Material => assert all[8] == k;
    case Texture => assert all[9] == k;
    case Sound => assert all[10] == k;
    case Animation => assert all[11] == k;
    case Prefab => assert all[12] == k;
    case Ruleset => assert all[13] == k;
  }

  /** The type name decides between unknown, reserved and good. */
  ghost predicate Named(r: Parsed, name: string)
    requires !r.Malformed?
  {
    && (r.UnknownType? <==> forall kind :: KindName(kind) != name)
    && (!r.UnknownType? ==> KindName(r.kind) == name && (r.Good? <==> Supported(r.kind)))
  }

  /** Whatever the text reads as, the result says: where the parts are, and what the type name is. */
  ghost predicate AsRead(text: string, r: Parsed)
    requires !r.Malformed?
  {
    forall ns, k, n :: Reads(text, ns, k, n) ==> r.Spans(text, ns, k, n) && Named(r, k)
  }

  /** Refuses exactly the texts without a reading; otherwise the spans are the one reading. */
  method Parse(text: string) returns (r: Parsed)
    ensures r.Malformed? <==> !WellFormed(text)
    ensures !r.Malformed? ==> AsRead(text, r)
  {
    hide Segment, Compose, Reads, WellFormed, AsRead, Named;
    if text == "" {
      NotRead(text, 0);
      return Malformed;
    }
    if |text| > ID_MAX {
      TooLong(text);
      return Malformed;
    }
    var colon := FirstOf(text, ':', 0);
    if colon == |text| {
      NotRead(text, colon);
      return Malformed;
    }
    var slash := FirstOf(text, '/', colon);
    if slash == |text| {
      NotRead(text, colon);
      return Malformed;
    }
    var ns, k, n := text[..colon], text[colon + 1..slash], text[slash + 1..];
    SplitAt(text, colon, slash);
    var okNs := IsSegment(ns, NAMESPACE_MAX);
    var okType := IsSegment(k, TYPE_MAX);
    var okName := IsSegment(n, NAME_MAX);
    OneReading(text, ns, k, n);
    if !okNs || !okType || !okName {
      return Malformed;
    }
    var found, kind := FindKind(k);
    if !found {
      r := UnknownType(|ns|, |k|, |n|);
    } else if kind != Animation && kind != Ruleset {
      r := Good(|ns|, |k|, |n|, kind);
    } else {
      r := ReservedType(|ns|, |k|, |n|, kind);
    }
    ReadThere(text, colon, slash, r, found, kind);
  }

  lemma ReadThere(text: string, colon: nat, slash: nat, r: Parsed, found: bool, kind: Kind)
    requires colon < slash < |text| && text[colon] == ':' && text[slash] == '/'
    requires ':' !in text[..colon] && '/' !in text[colon + 1..slash]
    requires found <==> exists k :: KindName(k) == text[colon + 1..slash]
    requires found ==> KindName(kind) == text[colon + 1..slash]
    requires var ns, k, n := |text[..colon]|, |text[colon + 1..slash]|, |text[slash + 1..]|;
      r ==
        if !found then UnknownType(ns, k, n)
        else if Supported(kind) then Good(ns, k, n, kind)
        else ReservedType(ns, k, n, kind)
    ensures AsRead(text, r)
  {
    hide Segment, Compose, Reads;
    var ns, k, n := text[..colon], text[colon + 1..slash], text[slash + 1..];
    SplitAt(text, colon, slash);
    OneReading(text, ns, k, n);
    assert text[colon + 1..][..|k|] == k;
    assert r.Spans(text, ns, k, n) && Named(r, k);
  }

  lemma SplitAt(text: string, colon: nat, slash: nat)
    requires colon < slash < |text| && text[colon] == ':' && text[slash] == '/'
    ensures text == Compose(text[..colon], text[colon + 1..slash], text[slash + 1..])
  {}

  lemma OneReading(text: string, ns: string, k: string, n: string)
    requires text == Compose(ns, k, n) && ':' !in ns && '/' !in k
    ensures WellFormed(text) <==>
      |text| <= ID_MAX && Segment(ns, NAMESPACE_MAX) && Segment(k, TYPE_MAX) &&
      Segment(n, NAME_MAX)
    ensures forall ns', k', n' :: Reads(text, ns', k', n') ==> ns' == ns && k' == k && n' == n
  {
    forall ns', k', n' | Reads(text, ns', k', n') ensures ns' == ns && k' == k && n' == n {
      SegmentHasNo(ns', NAMESPACE_MAX, ':');
      SegmentHasNo(k', TYPE_MAX, '/');
      ReadingUnique(ns, k, n, ns', k', n');
    }
    assert Reads(text, ns, k, n) <==> Segment(ns, NAMESPACE_MAX) && Segment(k, TYPE_MAX) && Segment(n, NAME_MAX);
  }

  lemma TooLong(text: string)
    requires |text| > ID_MAX
    ensures !WellFormed(text)
  {}

  lemma NotRead(text: string, colon: nat)
    requires colon <= |text| && ':' !in text[..colon] && '/' !in text[colon..]
    ensures !WellFormed(text)
  {
    forall ns, k, n ensures !Reads(text, ns, k, n) {
      if Reads(text, ns, k, n) {
        BothSeparators(text, ns, k, n, colon);
      }
    }
  }

  lemma BothSeparators(text: string, ns: string, k: string, n: string, at: nat)
    requires text == Compose(ns, k, n) && at <= |text|
    ensures ':' in text[..at] || '/' in text[at..]
  {
    var s := |ns| + 1 + |k|;
    if |ns| < at {
      assert text[..at][|ns|] == ':';
    } else {
      assert text[at..][s - at] == '/';
    }
  }

  // ----- package IDs

  ghost predicate PackageId(id: string) {
    && |id| <= PACKAGE_ID_MAX
    && exists segments: seq<string> ::
      0 < |segments| <= PACKAGE_SEGMENTS && Join('.', segments) == id &&
      Segments(segments)
  }

  ghost predicate Segments(pieces: seq<string>) {
    forall i :: 0 <= i < |pieces| ==> Segment(pieces[i], PACKAGE_ID_MAX)
  }

  /** Being made of segments is a property of the one split at the dots. */
  lemma PackageIdSplits(id: string)
    ensures PackageId(id) <==>
      |id| <= PACKAGE_ID_MAX && |Split('.', id)| <= PACKAGE_SEGMENTS &&
      Segments(Split('.', id))
  {
    JoinOfSplit('.', id);
    if PackageId(id) {
      var segments: seq<string> :| 0 < |segments| <= PACKAGE_SEGMENTS && Join('.', segments) == id &&
        Segments(segments);
      forall i | 0 <= i < |segments| ensures '.' !in segments[i] {
        SegmentHasNo(segments[i], PACKAGE_ID_MAX, '.');
      }
      SplitOfJoin('.', segments);
    }
  }

  method PackageIdValid(id: string) returns (ok: bool)
    ensures ok <==> PackageId(id)
  {
    hide Split, PackageId;
    PackageIdSplits(id);
    SplitFirst('.', "", "");
    if id == "" || |id| > PACKAGE_ID_MAX {
      assert id == "" ==> Split('.', id)[0] == "";
      return false;
    }
    var at, segments := 0, 0;
    ghost var done: seq<string> := [];
    while at <= |id|
      invariant at <= |id| && |done| == segments <= PACKAGE_SEGMENTS
      invariant Split('.', id) == done + Split('.', id[at..]) && Segments(done)
      decreases |id| - at
    {
      var dot := FirstOf(id, '.', at);
      segments := segments + 1;
      if segments > PACKAGE_SEGMENTS {
        return false;
      }
      NextPiece(id, at, dot, done);
      var good := IsSegment(id[at..dot], PACKAGE_ID_MAX);
      if !good {
        assert Split('.', id)[|done|] == id[at..dot];
        return false;
      }
      done := done + [id[at..dot]];
      at := dot + 1;
      if dot == |id| {
        return true;
      }
      if at == |id| {
        assert id[at..] == "";
        assert Split('.', id)[|done|] == "";
        return false;
      }
    }
    ok := true;
  }

  lemma NextPiece(id: string, at: nat, dot: nat, done: seq<string>)
    requires at <= dot <= |id| && '.' !in id[at..dot] && (dot < |id| ==> id[dot] == '.')
    requires Split('.', id) == done + Split('.', id[at..])
    ensures dot < |id| ==> Split('.', id) == done + [id[at..dot]] + Split('.', id[dot + 1..])
    ensures dot == |id| ==> Split('.', id) == done + [id[at..dot]]
  {
    hide *;
    var tail, piece := id[at..], id[at..dot];
    if dot < |id| {
      var rest := id[dot + 1..];
      assert tail == piece + ['.'] + rest by { CutAt(id, at, dot); }
      MiddlePiece(Split('.', id), done, tail, piece, rest);
    } else {
      assert tail == piece;
      SplitFirst('.', piece, "");
    }
  }

  lemma CutAt(id: string, at: nat, dot: nat)
    requires at <= dot < |id|
    ensures id[at..] == id[at..dot] + [id[dot]] + id[dot + 1..]
  {}

  lemma MiddlePiece(all: seq<string>, done: seq<string>, tail: string, piece: string, rest: string)
    requires all == done + Split('.', tail) && tail == piece + ['.'] + rest && '.' !in piece
    ensures all == done + [piece] + Split('.', rest)
  {
    hide *;
    SplitFirst('.', piece, rest);
    Associates(done, [piece], Split('.', rest));
  }

  // ----- local IDs and the names of expanded entities

  predicate Word(s: string) { |s| > 0 && forall i :: 0 <= i < |s| ==> Lower(s[i]) || Digit(s[i]) }

  /** [a-z][a-z0-9]*(_[a-z0-9]+)* of at most 23 bytes. */
  ghost predicate LocalId(id: string) {
    && |id| <= LOCAL_MAX
    && exists words: seq<string> :: |words| > 0 && Join('_', words) == id && Words(words) && Lower(words[0][0])
  }

  ghost predicate Words(words: seq<string>) {
    forall i :: 0 <= i < |words| ==> Word(words[i])
  }

  /** The same, character by character, as the check goes. */
  ghost predicate Plain(id: string) {
    && Segment(id, LOCAL_MAX) && id[|id| - 1] != '_'
    && forall i :: 0 <= i < |id| - 1 ==> !(id[i] == '_' && id[i + 1] == '_')
  }

  method LocalIdValid(id: string) returns (ok: bool)
    ensures ok <==> LocalId(id)
  {
    LocalIdIsPlain(id);
    if id == "" || |id| > LOCAL_MAX {
      return false;
    }
    for i := 0 to |id|
      invariant forall j :: 0 <= j < i ==> Lower(id[j]) || (j > 0 && (Digit(id[j]) || id[j] == '_'))
      invariant forall j :: 0 <= j < i && j < |id| - 1 ==> !(id[j] == '_' && id[j + 1] == '_')
    {
      if !(Lower(id[i]) || (i > 0 && (Digit(id[i]) || id[i] == '_'))) {
        return false;
      }
      if id[i] == '_' && i + 1 < |id| && id[i + 1] == '_' {
        return false;
      }
    }
    ok := id[|id| - 1] != '_';
  }

  /** Split at the underscores, the words are non-empty exactly when no two underscores meet and none is at an end. */
  lemma LocalIdIsPlain(id: string)
    ensures LocalId(id) <==> Plain(id)
  {
    if LocalId(id) {
      var words :| |words| > 0 && Join('_', words) == id && Words(words) && Lower(words[0][0]);
      JoinedWordsArePlain(words);
      assert id[0] == words[0][0];
    }
    if Plain(id) {
      var words := Split('_', id);
      JoinOfSplit('_', id);
      PlainSplitsIntoWords(id);
      assert id[0] == words[0][0] by {
        assert Join('_', words)[0] == words[0][0];
      }
    }
  }

  predicate Spaced(s: string) {
    && |s| > 0 && s[0] != '_' && s[|s| - 1] != '_'
    && (forall i :: 0 <= i < |s| ==> Lower(s[i]) || Digit(s[i]) || s[i] == '_')
    && forall i :: 0 <= i < |s| - 1 ==> !(s[i] == '_' && s[i + 1] == '_')
  }

  lemma {:induction false} JoinedWordsArePlain(words: seq<string>)
    requires |words| > 0 && Words(words)
    ensures Spaced(Join('_', words)) && Join('_', words)[0] == words[0][0]
  {
    if |words| > 1 {
      JoinedWordsArePlain(words[1..]);
      var head, tail := words[0], Join('_', words[1..]);
      var s := head + ['_'] + tail;
      forall i | 0 <= i < |s| - 1 ensures !(s[i] == '_' && s[i + 1] == '_') {
        if i > |head| {
          assert s[i] == tail[i - |head| - 1] && s[i + 1] == tail[i - |head| - 1 + 1];
        }
      }
    }
  }

  lemma {:induction false} PlainSplitsIntoWords(s: string)
    requires Spaced(s)
    ensures Words(Split('_', s))
  {
    var words := Split('_', s);
    if |s| > 1 {
      if s[1] == '_' {
        var rest := s[2..];
        assert Spaced(rest) by {
          forall i | 0 <= i < |rest| - 1 ensures !(rest[i] == '_' && rest[i + 1] == '_') {
            assert !(s[i + 2] == '_' && s[i + 2 + 1] == '_');
          }
        }
        PlainSplitsIntoWords(rest);
        assert s == [s[0]] + ['_'] + rest;
        SplitFirst('_', [s[0]], rest);
      } else {
        var rest := s[1..];
        assert Spaced(rest) by {
          forall i | 0 <= i < |rest| - 1 ensures !(rest[i] == '_' && rest[i + 1] == '_') {
            assert !(s[i + 1] == '_' && s[i + 1 + 1] == '_');
          }
        }
        PlainSplitsIntoWords(rest);
      }
    } else {
      SplitFirst('_', s, "");
    }
  }

  function ChildName(instance: string, child: string): string {
    instance + "__" + child
  }

  /** The first double underscore is the join, so instance and child can be read back. */
  lemma ChildNameInjective(a: string, b: string, a': string, b': string)
    requires LocalId(a) && LocalId(b) && LocalId(a') && LocalId(b')
    requires ChildName(a, b) == ChildName(a', b')
    ensures a == a' && b == b'
  {
    LocalIdIsPlain(a);
    LocalIdIsPlain(a');
    LocalIdIsPlain(b);
    LocalIdIsPlain(b');
    var s := ChildName(a, b);
    assert s[|a|] == '_' && s[|a| + 1] == '_' && s[|a'|] == '_' && s[|a'| + 1] == '_';
    if |a| < |a'| {
      JoinIsFirst(a, a', b', s);
    } else if |a'| < |a| {
      JoinIsFirst(a', a, b, s);
    }
    assert a == s[..|a|] && a' == s[..|a'|];
    assert b == s[|a| + 2..] && b' == s[|a'| + 2..];
  }

  lemma JoinIsFirst(short: string, long: string, child: string, s: string)
    requires Plain(long) && |short| < |long| && s == long + "__" + child
    ensures !(s[|short|] == '_' && s[|short| + 1] == '_')
  {
    assert s[|short|] == long[|short|];
    if |short| < |long| - 1 {
      assert s[|short| + 1] == long[|short| + 1];
    }
  }

  /** An expanded child never takes an authored entity's name, and its entity ID always parses: the limits
      23 + 2 + 23 = 48 and 40 + 8 + 48 = 96 just fit. */
  lemma ExpandedEntityParses(namespace: string, instance: string, child: string)
    requires Segment(namespace, NAMESPACE_MAX) && LocalId(instance) && LocalId(child)
    ensures Reads(Compose(namespace, "entity", ChildName(instance, child)), namespace, "entity",
      ChildName(instance, child))
    ensures WellFormed(Compose(namespace, "entity", ChildName(instance, child)))
    ensures !LocalId(ChildName(instance, child))
  {
    LocalIdIsPlain(instance);
    LocalIdIsPlain(child);
    var name := ChildName(instance, child);
    LocalIdIsPlain(name);
    assert |"entity"| == 6 && Segment("entity", TYPE_MAX);
    assert name[|instance|] == '_' && name[|instance| + 1] == '_';
    forall i | 0 < i < |name| ensures Lower(name[i]) || Digit(name[i]) || name[i] == '_' {
      if i >= |instance| + 2 {
        assert name[i] == child[i - |instance| - 2];
      }
    }
    assert Reads(Compose(namespace, "entity", name), namespace, "entity", name);
  }

  lemma ExpandedEntityInjective(ns: string, a: string, b: string, ns': string, a': string, b': string)
    requires Segment(ns, NAMESPACE_MAX) && Segment(ns', NAMESPACE_MAX)
    requires LocalId(a) && LocalId(b) && LocalId(a') && LocalId(b')
    requires Compose(ns, "entity", ChildName(a, b)) == Compose(ns', "entity", ChildName(a', b'))
    ensures ns == ns' && a == a' && b == b'
  {
    SegmentHasNo(ns, NAMESPACE_MAX, ':');
    SegmentHasNo(ns', NAMESPACE_MAX, ':');
    ReadingUnique(ns, "entity", ChildName(a, b), ns', "entity", ChildName(a', b'));
    ChildNameInjective(a, b, a', b');
  }
}
