/** The fingerprint two ends of a match compare: a tagged, length-prefixed byte stream of both rosters'
    gameplay fields, folded by FNV-1a 64. */
module Fingerprint {
  import opened Bits
  import opened CStrings
  import opened LittleEndian
  import opened Registers
  import opened Seqs

  /** A fixed char field, at most 64 bytes; what it says ends at its first NUL. */
  type Text = s: Bytes | |s| <= 64

  /** A roster entry's gameplay fields; floats and integers are their 32-bit patterns. */
  datatype Asset = Asset(
    kind: Text, name: Text, display: Text, base: Text,
    roundsPerSecond: Word, damageScale: Word, spreadScale: Word, magazine: Word, reserve: Word,
    melee: bool, mount: bool, flySpeed: Word, reloadRounds: Word, reloadSeconds: Word, recharge: Word,
    loadout0: Text, loadout1: Text,
    bodyHealth: Word, bodyShield: Word, bodyDamage: Word, bodySpeed: Word, canFly: bool, flyDamage: Word,
    heroGroup: Text, uniqueLimit: Word, abilityName: Text, abilityBase: Text,
    abilityDamage: Word, abilityCooldown: Word, abilityDuration: Word, abilityInterval: Word,
    abilityRadius: Word, abilityForce: Word, abilityCone: Word, abilityBeam: bool, knockback: Word)

  datatype Value = TextOf(text: Text) | Num(bits: Word) | Integer(word: Word) | Flag(on: bool)

  // The field each tag number carries, by group.

  function Label(a: Asset, number: nat): Value
    requires 1 <= number <= 4
  {
    match number
    case 1 => TextOf(a.kind)
    case 2 => TextOf(a.name)
    case 3 => TextOf(a.display)
    case _ => TextOf(a.base)
  }

  function Gun(a: Asset, number: nat): Value
    requires 5 <= number <= 15
  {
    match number
    case 5 => Num(a.roundsPerSecond)
    case 6 => Num(a.damageScale)
    case 7 => Num(a.spreadScale)
    case 8 => Integer(a.magazine)
    case 9 => Integer(a.reserve)
    case 10 => Flag(a.melee)
    case 11 => Flag(a.mount)
    case 12 => Num(a.flySpeed)
    case 13 => Integer(a.reloadRounds)
    case 14 => Num(a.reloadSeconds)
    case _ => Num(a.recharge)
  }

  function Body(a: Asset, number: nat): Value
    requires 16 <= number <= 25
  {
    match number
    case 16 => TextOf(a.loadout0)
    case 17 => TextOf(a.loadout1)
    case 18 => Num(a.bodyHealth)
    case 19 => Num(a.bodyShield)
    case 20 => Num(a.bodyDamage)
    case 21 => Num(a.bodySpeed)
    case 22 => Flag(a.canFly)
    case 23 => Num(a.flyDamage)
    case 24 => TextOf(a.heroGroup)
    case _ => Integer(a.uniqueLimit)
  }

  function Ability(a: Asset, number: nat): Value
    requires 26 <= number <= 36
  {
    match number
    case 26 => TextOf(a.abilityName)
    case 27 => TextOf(a.abilityBase)
    case 28 => Num(a.abilityDamage)
    case 29 => Num(a.abilityCooldown)
    case 30 => Num(a.abilityDuration)
    case 31 => Num(a.abilityInterval)
    case 32 => Num(a.abilityRadius)
    case 33 => Num(a.abilityForce)
    case 34 => Num(a.abilityCone)
    case 35 => Flag(a.abilityBeam)
    case _ => Num(a.knockback)
  }

  function Field(a: Asset, number: nat): Value
    requires 1 <= number <= 36
  {
    if number <= 4 then Label(a, number)
    else if number <= 15 then Gun(a, number)
    else if number <= 25 then Body(a, number)
    else Ability(a, number)
  }

  /** The fields in stream order. */
  function Fields(a: Asset): (r: seq<Value>)
    ensures |r| == 36
    ensures forall i :: 0 <= i < 36 ==> r[i] == Field(a, i + 1)
  {
    seq(36, i requires 0 <= i < 36 => Field(a, i + 1))
  }

  /** Any NaN is one NaN, and -0 is +0. */
  function Canonical(bits: Word): Word {
    if bits % 0x8000_0000 > 0x7F80_0000 then 0x7FC0_0000
    else if bits == 0x8000_0000 then 0
    else bits
  }

  /** What a field means to the game. */
  function Normal(v: Value): Value {
    match v
    case TextOf(s) => TextOf(UpToNul(s))
    case Num(bits) => Num(Canonical(bits))
    case _ => v
  }

  /** A binary32 pattern with all exponent bits set and a fraction. */
  predicate IsNan(bits: Word) {
    bits / 0x80_0000 % 256 == 255 && bits % 0x80_0000 != 0
  }

  /** One number to the game: the same pattern, two NaNs, or two zeros. */
  predicate SameNum(x: Word, y: Word) {
    x == y || (IsNan(x) && IsNan(y)) || (x in {0, 0x8000_0000} && y in {0, 0x8000_0000})
  }

  predicate SameLabels(a: Asset, b: Asset) {
    && UpToNul(a.kind) == UpToNul(b.kind) && UpToNul(a.name) == UpToNul(b.name)
    && UpToNul(a.display) == UpToNul(b.display) && UpToNul(a.base) == UpToNul(b.base)
  }

  predicate SameGun(a: Asset, b: Asset) {
    && SameNum(a.roundsPerSecond, b.roundsPerSecond) && SameNum(a.damageScale, b.damageScale)
    && SameNum(a.spreadScale, b.spreadScale) && a.magazine == b.magazine && a.reserve == b.reserve
    && a.melee == b.melee && a.mount == b.mount && SameNum(a.flySpeed, b.flySpeed)
    && a.reloadRounds == b.reloadRounds && SameNum(a.reloadSeconds, b.reloadSeconds)
    && SameNum(a.recharge, b.recharge)
  }

  predicate SameBody(a: Asset, b: Asset) {
    && UpToNul(a.loadout0) == UpToNul(b.loadout0) && UpToNul(a.loadout1) == UpToNul(b.loadout1)
    && SameNum(a.bodyHealth, b.bodyHealth) && SameNum(a.bodyShield, b.bodyShield)
    && SameNum(a.bodyDamage, b.bodyDamage) && SameNum(a.bodySpeed, b.bodySpeed) && a.canFly == b.canFly
    && SameNum(a.flyDamage, b.flyDamage) && UpToNul(a.heroGroup) == UpToNul(b.heroGroup)
    && a.uniqueLimit == b.uniqueLimit
  }

  predicate SameAbility(a: Asset, b: Asset) {
    && UpToNul(a.abilityName) == UpToNul(b.abilityName) && UpToNul(a.abilityBase) == UpToNul(b.abilityBase)
    && SameNum(a.abilityDamage, b.abilityDamage) && SameNum(a.abilityCooldown, b.abilityCooldown)
    && SameNum(a.abilityDuration, b.abilityDuration) && SameNum(a.abilityInterval, b.abilityInterval)
    && SameNum(a.abilityRadius, b.abilityRadius) && SameNum(a.abilityForce, b.abilityForce)
    && SameNum(a.abilityCone, b.abilityCone) && a.abilityBeam == b.abilityBeam && SameNum(a.knockback, b.knockback)
  }

  /** Two entries the game cannot tell apart, field by field. */
  predicate SameGameplay(a: Asset, b: Asset) {
    SameLabels(a, b) && SameGun(a, b) && SameBody(a, b) && SameAbility(a, b)
  }

  ghost predicate SameRoster(r: seq<Asset>, s: seq<Asset>) {
    |r| == |s| && forall i :: 0 <= i < |r| ==> SameGameplay(r[i], s[i])
  }

  // ----- the stream

  function Payload(v: Value): Bytes {
    match v
    case TextOf(s) => Le(|UpToNul(s)|, 4) + UpToNul(s)
    case Num(bits) => Le(Canonical(bits), 4)
    case Integer(w) => Le(w, 4)
    case Flag(on) => Le(if on then 1 else 0, 4)
  }

  function EncodeFields(vs: seq<Value>, first: nat): Bytes
    requires first + |vs| < 256
  {
    if vs == [] then [] else [first] + Payload(vs[0]) + EncodeFields(vs[1..], first + 1)
  }

  function EncodeAsset(a: Asset): Bytes {
    EncodeFields(Fields(a), 1) + [0xFF]
  }

  function EncodeAssets(r: seq<Asset>): Bytes {
    if r == [] then [] else EncodeAsset(r[0]) + EncodeAssets(r[1..])
  }

  type Roster = r: seq<Asset> | |r| < 0x1_0000_0000

  function EncodeRoster(r: Roster): Bytes {
    Le(|r|, 4) + EncodeAssets(r)
  }

  const SCHEMA: Word := 2

  function Stream(characters: Roster, weapons: Roster): Bytes {
    Le(SCHEMA, 4) + EncodeRoster(characters) + EncodeRoster(weapons)
  }

  // ----- the fold

  const OFFSET: U64 := 14695981039346656037

  function Step(h: U64, b: Byte): U64 {
    Xor(h, b) * 1099511628211 % 0x1_0000_0000_0000_0000
  }

  function Raw(s: Bytes): U64 {
    Fold(Step, OFFSET, s)
  }

  function Nonzero(h: U64): U64 {
    if h == 0 then 1 else h
  }

  /** The accumulator, fed through a pointer by every field writer. */
  class Fnv {
    var h: U64
    ghost var fed: Bytes

    ghost predicate Valid()
      reads this
    {
      h == Raw(fed)
    }

    constructor ()
      ensures Valid() && fed == []
    {
      h := OFFSET;
      fed := [];
    }

    method Feed(s: Bytes)
      requires Valid()
      modifies this
      ensures Valid() && fed == old(fed) + s
    {
      for i := 0 to |s|
        invariant Valid() && fed == old(fed) + s[..i]
      {
        FoldLast(Step, OFFSET, fed, s[i]);
        var mixed := Xor(h, s[i]);
        h := mixed * 1099511628211 % 0x1_0000_0000_0000_0000;
        fed := fed + [s[i]];
        assert s[..i + 1] == s[..i] + [s[i]];
      }
      assert s[..|s|] == s;
    }

    method U32(v: Word)
      requires Valid()
      modifies this
      ensures Valid() && fed == old(fed) + Le(v, 4)
    {
      Bytewise(v);
      Feed([v % 256, v / 256 % 256, v / 65536 % 256, v / 16777216 % 256]);
    }

    method Tag(t: Byte)
      requires Valid()
      modifies this
      ensures Valid() && fed == old(fed) + [t]
    {
      Feed([t]);
    }

    method WriteText(t: Byte, s: Text)
      requires Valid()
      modifies this
      ensures Valid() && fed == old(fed) + [t] + Payload(TextOf(s))
    {
      hide Raw, Le;
      var n := Length(s);
      Tag(t);
      U32(n);
      Feed(s[..n]);
      Associates(old(fed) + [t], Le(n, 4), s[..n]);
    }

    method WriteNum(t: Byte, bits: Word)
      requires Valid()
      modifies this
      ensures Valid() && fed == old(fed) + [t] + Payload(Num(bits))
    {
      hide Raw, Le;
      var b := bits;
      if bits % 0x8000_0000 > 0x7F80_0000 {
        b := 0x7FC0_0000;
      } else if bits % 0x8000_0000 == 0 {
        b := 0;
      }
      Tag(t);
      U32(b);
    }

    method WriteField(t: Byte, v: Value)
      requires Valid()
      modifies this
      ensures Valid() && fed == old(fed) + [t] + Payload(v)
    {
      match v
      case TextOf(s) => WriteText(t, s);
      case Num(bits) => WriteNum(t, bits);
      case Integer(w) => Tag(t); U32(w);
      case Flag(on) => Tag(t); U32(if on then 1 else 0);
    }

    method WriteAsset(a: Asset)
      requires Valid()
      modifies this
      ensures Valid() && fed == old(fed) + EncodeAsset(a)
    {
      hide Raw, Payload, Fields;
      var vs := Fields(a);
      for i := 0 to |vs|
        invariant Valid()
        invariant old(fed) + EncodeFields(vs, 1) == fed + EncodeFields(vs[i..], i + 1)
      {
        assert vs[i..][1..] == vs[i + 1..];
        Associates(fed + [i + 1], Payload(vs[i]), EncodeFields(vs[i + 1..], i + 2));
        Associates(fed, [i + 1], Payload(vs[i]) + EncodeFields(vs[i + 1..], i + 2));
        Associates([i + 1], Payload(vs[i]), EncodeFields(vs[i + 1..], i + 2));
        WriteField(i + 1, vs[i]);
      }
      assert fed + [] == fed;
      Associates(old(fed), EncodeFields(vs, 1), [0xFF]);
      Tag(0xFF);
    }
  }

  method ContentFingerprint(characters: Roster, weapons: Roster) returns (r: U64)
    ensures r == Nonzero(Raw(Stream(characters, weapons)))
    ensures r != 0
  {
    hide Raw, Le, EncodeAsset;
    var f := new Fnv();
    f.U32(SCHEMA);
    f.U32(|characters|);
    Associates(Le(SCHEMA, 4), Le(|characters|, 4), EncodeAssets(characters));
    for i := 0 to |characters|
      invariant f.Valid()
      invariant f.fed + EncodeAssets(characters[i..]) == Le(SCHEMA, 4) + EncodeRoster(characters)
    {
      assert characters[i..][1..] == characters[i + 1..];
      Associates(f.fed, EncodeAsset(characters[i]), EncodeAssets(characters[i + 1..]));
      f.WriteAsset(characters[i]);
    }
    assert f.fed + [] == f.fed;
    f.U32(|weapons|);
    Associates(Le(SCHEMA, 4) + EncodeRoster(characters), Le(|weapons|, 4), EncodeAssets(weapons));
    for i := 0 to |weapons|
      invariant f.Valid()
      invariant f.fed + EncodeAssets(weapons[i..]) == Stream(characters, weapons)
    {
      assert weapons[i..][1..] == weapons[i + 1..];
      Associates(f.fed, EncodeAsset(weapons[i]), EncodeAssets(weapons[i + 1..]));
      f.WriteAsset(weapons[i]);
    }
    assert f.fed + [] == f.fed;
    r := if f.h != 0 then f.h else 1;
  }

  lemma Bytewise(v: Word)
    ensures Le(v, 4) ==
            [v % 256, v / 256 % 256, v / 65536 % 256, v / 16777216 % 256]
  {
    assert v / 256 / 256 == v / 65536 && v / 65536 / 256 == v / 16777216;
    assert Le(v, 4) == [v % 256] + Le(v / 256, 3);
    assert Le(v / 256, 3) == [v / 256 % 256] + Le(v / 65536, 2);
    assert Le(v / 65536, 2) == [v / 65536 % 256] + Le(v / 16777216, 1);
  }

  // ----- what stands where

  function TextBytes(s: Text): Bytes {
    Le(|UpToNul(s)|, 4) + UpToNul(s)
  }

  function NumBytes(bits: Word): Bytes {
    Le(if IsNan(bits) then 0x7FC0_0000 else if bits == 0x8000_0000 then 0 else bits, 4)
  }

  function FlagBytes(on: bool): Bytes {
    if on then [1, 0, 0, 0] else [0, 0, 0, 0]
  }

  // What an entry puts into the stream, in tag order, by group.

  function LabelParts(a: Asset): (r: seq<Bytes>)
    ensures |r| == 4
  {
    [
      TextBytes(a.kind), TextBytes(a.name), TextBytes(a.display), TextBytes(a.base)
    ]
  }

  function GunParts(a: Asset): (r: seq<Bytes>)
    ensures |r| == 11
  {
    [
      NumBytes(a.roundsPerSecond), NumBytes(a.damageScale), NumBytes(a.spreadScale), Le(a.magazine, 4),
      Le(a.reserve, 4), FlagBytes(a.melee), FlagBytes(a.mount), NumBytes(a.flySpeed), Le(a.reloadRounds, 4),
      NumBytes(a.reloadSeconds), NumBytes(a.recharge)
    ]
  }

  function BodyParts(a: Asset): (r: seq<Bytes>)
    ensures |r| == 10
  {
    [
      TextBytes(a.loadout0), TextBytes(a.loadout1), NumBytes(a.bodyHealth), NumBytes(a.bodyShield),
      NumBytes(a.bodyDamage), NumBytes(a.bodySpeed), FlagBytes(a.canFly), NumBytes(a.flyDamage),
      TextBytes(a.heroGroup), Le(a.uniqueLimit, 4)
    ]
  }

  function AbilityParts(a: Asset): (r: seq<Bytes>)
    ensures |r| == 11
  {
    [
      TextBytes(a.abilityName), TextBytes(a.abilityBase), NumBytes(a.abilityDamage),
      NumBytes(a.abilityCooldown), NumBytes(a.abilityDuration), NumBytes(a.abilityInterval),
      NumBytes(a.abilityRadius), NumBytes(a.abilityForce), NumBytes(a.abilityCone), FlagBytes(a.abilityBeam),
      NumBytes(a.knockback)
    ]
  }

  function Tagged(parts: seq<Bytes>, first: nat): Bytes
    requires first + |parts| < 256
  {
    if parts == [] then [] else [first] + parts[0] + Tagged(parts[1..], first + 1)
  }

  lemma PayloadIs(v: Value)
    ensures Payload(v) == match v
      case TextOf(s) => TextBytes(s)
      case Num(bits) => NumBytes(bits)
      case Integer(w) => Le(w, 4)
      case Flag(on) => FlagBytes(on)
  {
    hide Le, UpToNul;
    FlagLe();
  }

  lemma FlagLe()
    ensures Le(1, 4) == [1, 0, 0, 0] && Le(0, 4) == [0, 0, 0, 0]
  {
    Bytewise(1);
    Bytewise(0);
  }

  lemma LabelPartAt(a: Asset, number: nat)
    requires 1 <= number <= 4
    ensures Payload(Field(a, number)) == LabelParts(a)[number - 1]
  {
    hide Le, UpToNul, Payload, TextBytes, NumBytes, FlagBytes, Gun, Body, Ability;
    PayloadIs(Field(a, number));
  }

  lemma GunPartAt(a: Asset, number: nat)
    requires 5 <= number <= 15
    ensures Payload(Field(a, number)) == GunParts(a)[number - 5]
  {
    hide Le, UpToNul, Payload, TextBytes, NumBytes, FlagBytes, Label, Body, Ability;
    PayloadIs(Field(a, number));
  }

  lemma BodyPartAt(a: Asset, number: nat)
    requires 16 <= number <= 25
    ensures Payload(Field(a, number)) == BodyParts(a)[number - 16]
  {
    hide Le, UpToNul, Payload, TextBytes, NumBytes, FlagBytes, Label, Gun, Ability;
    PayloadIs(Field(a, number));
  }

  lemma AbilityPartAt(a: Asset, number: nat)
    requires 26 <= number <= 36
    ensures Payload(Field(a, number)) == AbilityParts(a)[number - 26]
  {
    hide Le, UpToNul, Payload, TextBytes, NumBytes, FlagBytes, Label, Gun, Body;
    PayloadIs(Field(a, number));
  }

  lemma {:induction false} TaggedFields(vs: seq<Value>, parts: seq<Bytes>, first: nat)
    requires |vs| == |parts| && first + |vs| < 256
    requires forall i :: 0 <= i < |vs| ==> Payload(vs[i]) == parts[i]
    ensures EncodeFields(vs, first) == Tagged(parts, first)
  {
    hide Payload;
    if vs != [] {
      assert Payload(vs[0]) == parts[0];
      forall i | 0 <= i < |vs[1..]| ensures Payload(vs[1..][i]) == parts[1..][i] {
        assert Payload(vs[i + 1]) == parts[i + 1];
      }
      TaggedFields(vs[1..], parts[1..], first + 1);
    }
  }

  lemma {:induction false} EncodeFieldsConcat(vs: seq<Value>, ws: seq<Value>, first: nat)
    requires first + |vs| + |ws| < 256
    ensures EncodeFields(vs + ws, first) == EncodeFields(vs, first) + EncodeFields(ws, first + |vs|)
  {
    hide Payload;
    if vs == [] {
      assert vs + ws == ws;
    } else {
      assert (vs + ws)[1..] == vs[1..] + ws;
      EncodeFieldsConcat(vs[1..], ws, first + 1);
      Associates([first] + Payload(vs[0]), EncodeFields(vs[1..], first + 1), EncodeFields(ws, first + |vs|));
    }
  }

  /** The fields from number first to last, tagged. */
  function Span(a: Asset, first: nat, last: nat): Bytes
    requires 1 <= first <= last <= 36
  {
    EncodeFields(Fields(a)[first - 1..last], first)
  }

  lemma SpanSplits(a: Asset, first: nat, middle: nat, last: nat)
    requires 1 <= first <= middle < last <= 36
    ensures Span(a, first, last) == Span(a, first, middle) + Span(a, middle + 1, last)
  {
    hide Payload, Fields, Field;
    var vs := Fields(a);
    assert vs[first - 1..last] == vs[first - 1..middle] + vs[middle..last];
    EncodeFieldsConcat(vs[first - 1..middle], vs[middle..last], first);
  }

  lemma LabelLaidOut(a: Asset)
    ensures Span(a, 1, 4) == Tagged(LabelParts(a), 1)
  {
    hide Payload, LabelParts, Field;
    var vs := Fields(a)[0..4];
    forall i | 0 <= i < |vs| ensures Payload(vs[i]) == LabelParts(a)[i] {
      LabelPartAt(a, i + 1);
    }
    TaggedFields(vs, LabelParts(a), 1);
  }

  lemma GunLaidOut(a: Asset)
    ensures Span(a, 5, 15) == Tagged(GunParts(a), 5)
  {
    hide Payload, GunParts, Field;
    var vs := Fields(a)[4..15];
    forall i | 0 <= i < |vs| ensures Payload(vs[i]) == GunParts(a)[i] {
      GunPartAt(a, i + 5);
    }
    TaggedFields(vs, GunParts(a), 5);
  }

  lemma BodyLaidOut(a: Asset)
    ensures Span(a, 16, 25) == Tagged(BodyParts(a), 16)
  {
    hide Payload, BodyParts, Field;
    var vs := Fields(a)[15..25];
    forall i | 0 <= i < |vs| ensures Payload(vs[i]) == BodyParts(a)[i] {
      BodyPartAt(a, i + 16);
    }
    TaggedFields(vs, BodyParts(a), 16);
  }

  lemma AbilityLaidOut(a: Asset)
    ensures Span(a, 26, 36) == Tagged(AbilityParts(a), 26)
  {
    hide Payload, AbilityParts, Field;
    var vs := Fields(a)[25..36];
    forall i | 0 <= i < |vs| ensures Payload(vs[i]) == AbilityParts(a)[i] {
      AbilityPartAt(a, i + 26);
    }
    TaggedFields(vs, AbilityParts(a), 26);
  }

  function Laid(a: Asset): Bytes {
    var rest := Tagged(BodyParts(a), 16) + Tagged(AbilityParts(a), 26);
    Tagged(LabelParts(a), 1) + (Tagged(GunParts(a), 5) + rest) + [0xFF]
  }

  /** An entry is its 36 fields, each after its own tag, and the end mark. */
  lemma EntryLaidOut(a: Asset)
    ensures EncodeAsset(a) == Laid(a)
  {
    hide Payload, Tagged, EncodeFields, Fields, LabelParts, GunParts, BodyParts, AbilityParts;
    assert Fields(a)[0..36] == Fields(a);
    SpanSplits(a, 1, 4, 36);
    SpanSplits(a, 5, 15, 36);
    SpanSplits(a, 16, 25, 36);
    LabelLaidOut(a);
    GunLaidOut(a);
    BodyLaidOut(a);
    AbilityLaidOut(a);
  }

  function Entries(r: seq<Asset>): Bytes {
    if r == [] then [] else Laid(r[0]) + Entries(r[1..])
  }

  lemma {:induction false} EntriesLaidOut(r: seq<Asset>)
    ensures EncodeAssets(r) == Entries(r)
  {
    hide EncodeAsset, Laid;
    if r != [] {
      EntryLaidOut(r[0]);
      EntriesLaidOut(r[1..]);
    }
  }

  /** The stream is version 2, then each roster's size and entries. */
  lemma StreamLaidOut(characters: Roster, weapons: Roster)
    ensures Stream(characters, weapons) ==
            [2, 0, 0, 0] + (Le(|characters|, 4) + Entries(characters)) + (Le(|weapons|, 4) + Entries(weapons))
  {
    hide EncodeAssets, Entries, Le;
    VersionBytes();
    EntriesLaidOut(characters);
    EntriesLaidOut(weapons);
  }

  lemma VersionBytes()
    ensures Le(SCHEMA, 4) == [2, 0, 0, 0]
  {
    hide Le;
    Bytewise(SCHEMA);
  }

  /** The values FNV-1a 64 is published with for the empty text and for "a". */
  lemma KnownHashes()
    ensures Raw([]) == 0xcbf29ce484222325
    ensures Raw([0x61]) == 0xaf63dc4c8601ec8c
  {
    hide Xor;
    FoldLast(Step, OFFSET, [], 0x61);
    MixedByte();
  }

  lemma MixedByte()
    ensures Xor(0xcbf29ce484222325, 0x61) == 0xcbf29ce484222344
  {
    XorSelf(0x197e539c9084446);
    assert Xor(0x32fca739210888c, 1) == 0x32fca739210888d;
    assert Xor(0x65f94e724211119, 3) == 0x65f94e72421111a;
    assert Xor(0xcbf29ce48422232, 6) == 0xcbf29ce48422234;
    assert Xor(0x197e539c90844464, 12) == 0x197e539c90844468;
    assert Xor(0x32fca739210888c9, 24) == 0x32fca739210888d1;
    assert Xor(0x65f94e7242111192, 48) == 0x65f94e72421111a2;
  }

  // ----- the stream is injective

  lemma WordHead(v: Word, w: Word, s: Bytes, t: Bytes)
    requires Le(v, 4) + s == Le(w, 4) + t
    ensures v == w && s == t
  {
    assert (Le(v, 4) + s)[..4] == Le(v, 4) && (Le(w, 4) + t)[..4] == Le(w, 4);
    assert (Le(v, 4) + s)[4..] == s && (Le(w, 4) + t)[4..] == t;
    Sizes();
    LeInjective(v, w, 4);
  }

  lemma TextHead(a: Bytes, b: Bytes, s: Bytes, t: Bytes)
    requires |a| <= 64 && |b| <= 64
    requires Le(|a|, 4) + a + s == Le(|b|, 4) + b + t
    ensures a == b && s == t
  {
    Associates(Le(|a|, 4), a, s);
    Associates(Le(|b|, 4), b, t);
    WordHead(|a|, |b|, a + s, b + t);
    SplitHead(a, b, s, t);
  }

  lemma PayloadHead(v: Value, w: Value, s: Bytes, t: Bytes)
    requires SameKind(v, w)
    requires Payload(v) + s == Payload(w) + t
    ensures Normal(v) == Normal(w) && s == t
  {
    match v
    case TextOf(a) => TextHead(UpToNul(a), UpToNul(w.text), s, t);
    case Num(bits) => WordHead(Canonical(bits), Canonical(w.bits), s, t);
    case Integer(x) => WordHead(x, w.word, s, t);
    case Flag(on) => WordHead(if on then 1 else 0, if w.on then 1 else 0, s, t);
  }

  predicate SameKind(v: Value, w: Value) {
    v.TextOf? == w.TextOf? && v.Num? == w.Num? && v.Integer? == w.Integer? && v.Flag? == w.Flag?
  }

  lemma {:induction false} FieldsHead(vs: seq<Value>, ws: seq<Value>, first: nat, s: Bytes, t: Bytes)
    requires |vs| == |ws| && first + |vs| < 256
    requires forall i :: 0 <= i < |vs| ==> SameKind(vs[i], ws[i])
    requires EncodeFields(vs, first) + s == EncodeFields(ws, first) + t
    ensures forall i :: 0 <= i < |vs| ==> Normal(vs[i]) == Normal(ws[i])
    ensures s == t
  {
    if vs == [] {
      assert s == [] + s && t == [] + t;
    } else {
      var tag := [first];
      var v, w, restV, restW := Payload(vs[0]), Payload(ws[0]), EncodeFields(vs[1..], first + 1),
        EncodeFields(ws[1..], first + 1);
      Associates(tag + v, restV, s);
      Associates(tag, v, restV + s);
      Associates(tag + w, restW, t);
      Associates(tag, w, restW + t);
      SplitHead(tag, tag, v + (restV + s), w + (restW + t));
      PayloadHead(vs[0], ws[0], restV + s, restW + t);
      FieldsHead(vs[1..], ws[1..], first + 1, s, t);
      forall i | 0 <= i < |vs| ensures Normal(vs[i]) == Normal(ws[i]) {
        if i > 0 {
          assert vs[i] == vs[1..][i - 1] && ws[i] == ws[1..][i - 1];
        }
      }
    }
  }

  lemma EntryHead(vs: seq<Value>, ws: seq<Value>, s: Bytes, t: Bytes)
    requires |vs| == |ws| == 36
    requires forall i :: 0 <= i < |vs| ==> SameKind(vs[i], ws[i])
    requires EncodeFields(vs, 1) + [0xFF] + s == EncodeFields(ws, 1) + [0xFF] + t
    ensures forall i :: 0 <= i < 36 ==> Normal(vs[i]) == Normal(ws[i])
    ensures s == t
  {
    Associates(EncodeFields(vs, 1), [0xFF], s);
    Associates(EncodeFields(ws, 1), [0xFF], t);
    FieldsHead(vs, ws, 1, [0xFF] + s, [0xFF] + t);
    SplitHead([0xFF], [0xFF], s, t);
  }

  lemma CanonicalDecides(x: Word, y: Word)
    ensures Canonical(x) == Canonical(y) <==> SameNum(x, y)
  {}

  /** What two values of a field that mean the same have in common. */
  predicate Alike(v: Value, w: Value) {
    match (v, w)
    case (TextOf(s), TextOf(t)) => UpToNul(s) == UpToNul(t)
    case (Num(x), Num(y)) => SameNum(x, y)
    case _ => v == w
  }

  lemma AlikeDecides(v: Value, w: Value)
    requires SameKind(v, w)
    ensures Normal(v) == Normal(w) <==> Alike(v, w)
  {
    hide Canonical, SameNum;
    if v.Num? {
      CanonicalDecides(v.bits, w.bits);
    }
  }

  ghost predicate AlikeFrom(a: Asset, b: Asset, first: nat, last: nat)
    requires 1 <= first && last <= 36
  {
    forall number :: first <= number <= last ==> Alike(Field(a, number), Field(b, number))
  }

  lemma SameLabelsIs(a: Asset, b: Asset)
    ensures SameLabels(a, b) <==> AlikeFrom(a, b, 1, 4)
  {
    hide SameNum, UpToNul, Gun, Body, Ability;
    assert AlikeFrom(a, b, 1, 4) ==>
           Alike(Field(a, 1), Field(b, 1)) && Alike(Field(a, 2), Field(b, 2)) &&
           Alike(Field(a, 3), Field(b, 3)) && Alike(Field(a, 4), Field(b, 4));
  }

  lemma SameGunIs(a: Asset, b: Asset)
    ensures SameGun(a, b) <==> AlikeFrom(a, b, 5, 15)
  {
    hide SameNum, UpToNul, Label, Body, Ability;
    assert AlikeFrom(a, b, 5, 15) ==>
           Alike(Field(a, 5), Field(b, 5)) && Alike(Field(a, 6), Field(b, 6)) &&
           Alike(Field(a, 7), Field(b, 7)) && Alike(Field(a, 8), Field(b, 8)) &&
           Alike(Field(a, 9), Field(b, 9)) && Alike(Field(a, 10), Field(b, 10)) &&
           Alike(Field(a, 11), Field(b, 11)) && Alike(Field(a, 12), Field(b, 12)) &&
           Alike(Field(a, 13), Field(b, 13)) && Alike(Field(a, 14), Field(b, 14)) &&
           Alike(Field(a, 15), Field(b, 15));
  }

  lemma SameBodyIs(a: Asset, b: Asset)
    ensures SameBody(a, b) <==> AlikeFrom(a, b, 16, 25)
  {
    hide SameNum, UpToNul, Label, Gun, Ability;
    assert AlikeFrom(a, b, 16, 25) ==>
           Alike(Field(a, 16), Field(b, 16)) && Alike(Field(a, 17), Field(b, 17)) &&
           Alike(Field(a, 18), Field(b, 18)) && Alike(Field(a, 19), Field(b, 19)) &&
           Alike(Field(a, 20), Field(b, 20)) && Alike(Field(a, 21), Field(b, 21)) &&
           Alike(Field(a, 22), Field(b, 22)) && Alike(Field(a, 23), Field(b, 23)) &&
           Alike(Field(a, 24), Field(b, 24)) && Alike(Field(a, 25), Field(b, 25));
  }

  lemma SameAbilityIs(a: Asset, b: Asset)
    ensures SameAbility(a, b) <==> AlikeFrom(a, b, 26, 36)
  {
    hide SameNum, UpToNul, Label, Gun, Body;
    assert AlikeFrom(a, b, 26, 36) ==>
           Alike(Field(a, 26), Field(b, 26)) && Alike(Field(a, 27), Field(b, 27)) &&
           Alike(Field(a, 28), Field(b, 28)) && Alike(Field(a, 29), Field(b, 29)) &&
           Alike(Field(a, 30), Field(b, 30)) && Alike(Field(a, 31), Field(b, 31)) &&
           Alike(Field(a, 32), Field(b, 32)) && Alike(Field(a, 33), Field(b, 33)) &&
           Alike(Field(a, 34), Field(b, 34)) && Alike(Field(a, 35), Field(b, 35)) &&
           Alike(Field(a, 36), Field(b, 36));
  }

  lemma SameGameplayIs(a: Asset, b: Asset)
    ensures SameGameplay(a, b) <==> AlikeFrom(a, b, 1, 36)
  {
    hide SameLabels, SameGun, SameBody, SameAbility, Alike, Field;
    SameLabelsIs(a, b);
    SameGunIs(a, b);
    SameBodyIs(a, b);
    SameAbilityIs(a, b);
  }

  /** The fields mean the same one by one exactly when the entries play the same. */
  lemma FieldsDecide(a: Asset, b: Asset)
    ensures (forall i :: 0 <= i < 36 ==> Normal(Fields(a)[i]) == Normal(Fields(b)[i])) <==> SameGameplay(a, b)
  {
    hide SameGameplay, Normal, Field, Alike, SameKind;
    SameGameplayIs(a, b);
    forall i | 0 <= i < 36
      ensures Normal(Fields(a)[i]) == Normal(Fields(b)[i]) <==> Alike(Field(a, i + 1), Field(b, i + 1))
    {
      SameShapeAt(a, b, i + 1);
      AlikeDecides(Fields(a)[i], Fields(b)[i]);
    }
    if AlikeFrom(a, b, 1, 36) {
    } else {
      var number :| 1 <= number <= 36 && !Alike(Field(a, number), Field(b, number));
      assert Normal(Fields(a)[number - 1]) != Normal(Fields(b)[number - 1]);
    }
  }

  lemma SameShape(a: Asset, b: Asset)
    ensures forall i :: 0 <= i < 36 ==> SameKind(Fields(a)[i], Fields(b)[i])
  {
    hide Field, SameKind;
    forall i | 0 <= i < 36 ensures SameKind(Fields(a)[i], Fields(b)[i]) {
      SameShapeAt(a, b, i + 1);
    }
  }

  lemma LabelShape(a: Asset, b: Asset, number: nat)
    requires 1 <= number <= 4
    ensures SameKind(Label(a, number), Label(b, number))
  {}

  lemma GunShape(a: Asset, b: Asset, number: nat)
    requires 5 <= number <= 15
    ensures SameKind(Gun(a, number), Gun(b, number))
  {}

  lemma BodyShape(a: Asset, b: Asset, number: nat)
    requires 16 <= number <= 25
    ensures SameKind(Body(a, number), Body(b, number))
  {}

  lemma AbilityShape(a: Asset, b: Asset, number: nat)
    requires 26 <= number <= 36
    ensures SameKind(Ability(a, number), Ability(b, number))
  {}

  lemma SameShapeAt(a: Asset, b: Asset, number: nat)
    requires 1 <= number <= 36
    ensures SameKind(Field(a, number), Field(b, number))
  {
    hide Label, Gun, Body, Ability, SameKind;
    if number <= 4 {
      LabelShape(a, b, number);
    } else if number <= 15 {
      GunShape(a, b, number);
    } else if number <= 25 {
      BodyShape(a, b, number);
    } else {
      AbilityShape(a, b, number);
    }
  }

  lemma AssetHead(a: Asset, b: Asset, s: Bytes, t: Bytes)
    requires EncodeAsset(a) + s == EncodeAsset(b) + t
    ensures SameGameplay(a, b) && s == t
  {
    hide Fields, EncodeFields, SameGameplay;
    SameShape(a, b);
    EntryHead(Fields(a), Fields(b), s, t);
    FieldsDecide(a, b);
  }

  lemma {:induction false} AssetsHead(r: seq<Asset>, q: seq<Asset>, s: Bytes, t: Bytes)
    requires |r| == |q| && EncodeAssets(r) + s == EncodeAssets(q) + t
    ensures SameRoster(r, q) && s == t
  {
    hide EncodeAsset, SameGameplay;
    if r == [] {
      assert s == [] + s && t == [] + t;
    } else {
      Associates(EncodeAsset(r[0]), EncodeAssets(r[1..]), s);
      Associates(EncodeAsset(q[0]), EncodeAssets(q[1..]), t);
      AssetHead(r[0], q[0], EncodeAssets(r[1..]) + s, EncodeAssets(q[1..]) + t);
      AssetsHead(r[1..], q[1..], s, t);
      forall i | 0 <= i < |r| ensures SameGameplay(r[i], q[i]) {
        if i > 0 {
          assert r[i] == r[1..][i - 1] && q[i] == q[1..][i - 1];
        }
      }
    }
  }

  lemma RosterHead(r: Roster, q: Roster, s: Bytes, t: Bytes)
    requires EncodeRoster(r) + s == EncodeRoster(q) + t
    ensures SameRoster(r, q) && s == t
  {
    hide EncodeAssets, SameRoster, Le;
    Associates(Le(|r|, 4), EncodeAssets(r), s);
    Associates(Le(|q|, 4), EncodeAssets(q), t);
    WordHead(|r|, |q|, EncodeAssets(r) + s, EncodeAssets(q) + t);
    AssetsHead(r, q, s, t);
  }

  lemma {:induction false} NormalDecides(vs: seq<Value>, ws: seq<Value>, first: nat)
    requires |vs| == |ws| && first + |vs| < 256
    requires forall i :: 0 <= i < |vs| ==> Normal(vs[i]) == Normal(ws[i])
    ensures EncodeFields(vs, first) == EncodeFields(ws, first)
  {
    if vs != [] {
      assert Normal(vs[0]) == Normal(ws[0]);
      NormalDecides(vs[1..], ws[1..], first + 1);
    }
  }

  lemma {:induction false} SameRosterSameBytes(r: seq<Asset>, q: seq<Asset>)
    requires SameRoster(r, q)
    ensures EncodeAssets(r) == EncodeAssets(q)
  {
    hide SameGameplay;
    if r != [] {
      assert SameGameplay(r[0], q[0]);
      FieldsDecide(r[0], q[0]);
      NormalDecides(Fields(r[0]), Fields(q[0]), 1);
      forall i | 0 <= i < |r[1..]| ensures SameGameplay(r[1..][i], q[1..][i]) {
        assert SameGameplay(r[i + 1], q[i + 1]);
      }
      SameRosterSameBytes(r[1..], q[1..]);
    }
  }

  lemma RosterBytes(r: Roster, q: Roster)
    requires SameRoster(r, q)
    ensures EncodeRoster(r) == EncodeRoster(q)
  {
    SameRosterSameBytes(r, q);
  }

  /** The stream is the same exactly when both rosters play the same, entry by entry. */
  lemma StreamDecidesRosters(c: Roster, w: Roster, c': Roster, w': Roster)
    ensures Stream(c, w) == Stream(c', w') <==> SameRoster(c, c') && SameRoster(w, w')
  {
    hide EncodeRoster, SameRoster;
    if Stream(c, w) == Stream(c', w') {
      Associates(Le(SCHEMA, 4), EncodeRoster(c), EncodeRoster(w));
      Associates(Le(SCHEMA, 4), EncodeRoster(c'), EncodeRoster(w'));
      SplitHead(Le(SCHEMA, 4), Le(SCHEMA, 4), EncodeRoster(c) + EncodeRoster(w), EncodeRoster(c') + EncodeRoster(w'));
      RosterHead(c, c', EncodeRoster(w), EncodeRoster(w'));
      assert EncodeRoster(w) + [] == EncodeRoster(w') + [];
      RosterHead(w, w', [], []);
    }
    if SameRoster(c, c') && SameRoster(w, w') {
      RosterBytes(c, c');
      RosterBytes(w, w');
    }
  }

  // ----- the hash step is a bijection

  /** Multiplying by the odd prime is undone by multiplying by its inverse mod 2^64. */
  lemma PrimeInverts(x: U64)
    ensures (x * 1099511628211 % 0x1_0000_0000_0000_0000) * 0xce965057aff6957b % 0x1_0000_0000_0000_0000 == x
  {
    var q, r := x * 1099511628211 / 0x1_0000_0000_0000_0000, x * 1099511628211 % 0x1_0000_0000_0000_0000;
    assert 1099511628211 * 0xce965057aff6957b == QUOTIENT * 0x1_0000_0000_0000_0000 + 1;
    assert r * 0xce965057aff6957b == x + 0x1_0000_0000_0000_0000 * (x * QUOTIENT - q * 0xce965057aff6957b);
    Remainder(x, x * QUOTIENT - q * 0xce965057aff6957b);
  }

  const QUOTIENT := 887285111055

  lemma Remainder(x: U64, z: int)
    ensures (x + 0x1_0000_0000_0000_0000 * z) % 0x1_0000_0000_0000_0000 == x
  {}

  lemma StepInjective(g: U64, h: U64, b: Byte, c: Byte)
    requires Step(g, b) == Step(h, c)
    ensures b == c ==> g == h
    ensures g == h ==> b == c
  {
    MixedBound(g, b);
    MixedBound(h, c);
    PrimeInverts(Xor(g, b));
    PrimeInverts(Xor(h, c));
    XorCancels(g, h, b);
    XorCancels(b, c, g);
  }

  lemma MixedBound(h: U64, b: Byte)
    ensures Xor(h, b) < 0x1_0000_0000_0000_0000
  {
    Powers();
    XorBound(h, b, 64);
  }

  /** One changed byte always changes the raw hash; the fingerprint misses it only across the 0-to-1 fold. */
  lemma OneByteChangesHash(s: Bytes, t: Bytes, i: nat)
    requires DifferOnce(s, t, i)
    ensures Raw(s) != Raw(t)
    ensures Nonzero(Raw(s)) == Nonzero(Raw(t)) <==> {Raw(s), Raw(t)} == {0, 1}
  {
    forall x, y, b | Step(x, b) == Step(y, b) ensures x == y {
      StepInjective(x, y, b, b);
    }
    forall x, b, c | Step(x, b) == Step(x, c) ensures b == c {
      StepInjective(x, x, b, c);
    }
    FoldSeesOneChange(Step, OFFSET, s, t, i);
  }
}
