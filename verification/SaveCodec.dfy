/** The progression save file: a 16-byte header with size and CRC, then fixed-width little-endian fields. */
module SaveCodec {
  import opened Bits
  import opened CStrings
  import opened Crc32
  import opened LittleEndian
  import opened Options
  import opened Progression
  import opened Registers
  import opened Seqs

  const SAVE_MAX := 8192
  const HEADER := 16
  const BASE := 401
  const MAGIC: Bytes := ['M' as int, 'P' as int, 'R' as int, 'G' as int]

  /** An item ID as the record holds it: a 64-byte char field. */
  type Buffer = s: Bytes | |s| == ITEM_ID witness seq(ITEM_ID, _ => 0)

  const NO_ID: Buffer := seq(ITEM_ID, _ => 0)

  const NO_IDS: seq<Buffer> := [NO_ID, NO_ID, NO_ID, NO_ID]

  type Save = p: Profile<Buffer> | Shaped(p)
    witness Profile(0, 0, 0, 0, 0, seq(8, _ => 0), seq(5, _ => 0), 0, NO_IDS, [])

  /** The profile the game sees: IDs compared as strings. */
  function Texts(p: Save): (r: Profile<Text>)
    ensures Shaped(r)
    ensures |r.inventory| == |p.inventory|
  {
    Profile(p.gold, p.experience, p.earnedGold, p.kills, p.waves, p.skill, p.upgrade, p.prestige,
            seq(4, i requires 0 <= i < 4 => UpToNul(p.equipment[i])),
            seq(|p.inventory|, i requires 0 <= i < |p.inventory| =>
              Owned(UpToNul(p.inventory[i].id), p.inventory[i].quantity)))
  }

  ghost predicate ValidSave(p: Save) {
    Valid(Texts(p))
  }

  function ZeroPad(t: Bytes): Buffer
    requires |t| <= ITEM_ID
  {
    t + seq(ITEM_ID - |t|, _ => 0)
  }

  /** The profile with every byte after an ID's NUL cleared. */
  function Zeroed(p: Save): Save {
    p.(equipment := seq(4, i requires 0 <= i < 4 => ZeroPad(UpToNul(p.equipment[i]))),
       inventory := seq(|p.inventory|, i requires 0 <= i < |p.inventory| =>
         p.inventory[i].(id := ZeroPad(UpToNul(p.inventory[i].id)))))
  }

  // ----- the image

  function Le8(v: U64): Bytes { Le(v, 8) }
  function Le4(v: Word): Bytes { Le(v, 4) }
  function IdBytes(b: Buffer): Bytes { b }
  function ItemBytes(o: Owned<Buffer>): Bytes { o.id + Le(o.quantity, 4) }
  function Numbers(p: Save): seq<U64> { [p.gold, p.experience, p.earnedGold, p.kills, p.waves] }

  function Count(p: Save): Bytes { [|p.inventory|] }

  function Body(p: Save): Bytes {
    Flatten(Le8, Numbers(p)) + Flatten(Le8, p.skill) + Flatten(Le4, p.upgrade) + Le(p.prestige, 4)
    + Count(p) + Flatten(IdBytes, p.equipment) + Flatten(ItemBytes, p.inventory)
  }

  function File(body: Bytes): Bytes {
    MAGIC + Le(1, 4) + Le(HEADER + |body|, 4) + Le(Crc(body), 4) + body
  }

  function Image(p: Save): Bytes {
    File(Body(p))
  }

  lemma Widths()
    ensures forall v: U64 :: |Le8(v)| == 8
    ensures forall v: Word :: |Le4(v)| == 4
    ensures forall b: Buffer :: |IdBytes(b)| == 64
    ensures forall o: Owned<Buffer> :: |ItemBytes(o)| == 68
  {}

  lemma FieldsInjective()
    ensures forall v: U64, w: U64 :: Le8(v) == Le8(w) ==> v == w
    ensures forall v: Word, w: Word :: Le4(v) == Le4(w) ==> v == w
    ensures forall b: Buffer, c: Buffer :: IdBytes(b) == IdBytes(c) ==> b == c
    ensures forall o: Owned<Buffer>, q: Owned<Buffer> :: ItemBytes(o) == ItemBytes(q) ==> o == q
  {
    Sizes();
    forall v: U64, w: U64 | Le8(v) == Le8(w) ensures v == w { LeInjective(v, w, 8); }
    forall v: Word, w: Word | Le4(v) == Le4(w) ensures v == w { LeInjective(v, w, 4); }
    forall o: Owned<Buffer>, q: Owned<Buffer> | ItemBytes(o) == ItemBytes(q) ensures o == q {
      SplitHead(o.id, q.id, Le(o.quantity, 4), Le(q.quantity, 4));
      LeInjective(o.quantity, q.quantity, 4);
    }
  }

  /** The encoded size: the base and 68 bytes an item, always within the buffer when valid. */
  lemma ImageSize(p: Save)
    ensures |Image(p)| == BASE + 68 * |p.inventory|
    ensures ValidSave(p) ==> |Image(p)| <= SAVE_MAX
  {
    hide Flatten, Le;
    Widths();
    FlattenLength(Le8, Numbers(p), 8);
    FlattenLength(Le8, p.skill, 8);
    FlattenLength(Le4, p.upgrade, 4);
    FlattenLength(IdBytes, p.equipment, 64);
    FlattenLength(ItemBytes, p.inventory, 68);
  }

  lemma BodyInjective(p: Save, q: Save)
    requires Body(p) == Body(q)
    ensures p == q
  {
    hide Flatten, Le;
    Widths();
    FieldsInjective();
    var n, s, u, e := Flatten(Le8, Numbers(p)), Flatten(Le8, p.skill), Flatten(Le4, p.upgrade),
      Flatten(IdBytes, p.equipment);
    var n', s', u', e' := Flatten(Le8, Numbers(q)), Flatten(Le8, q.skill), Flatten(Le4, q.upgrade),
      Flatten(IdBytes, q.equipment);
    FlattenLength(Le8, Numbers(p), 8);
    FlattenLength(Le8, Numbers(q), 8);
    FlattenLength(Le8, p.skill, 8);
    FlattenLength(Le8, q.skill, 8);
    FlattenLength(Le4, p.upgrade, 4);
    FlattenLength(Le4, q.upgrade, 4);
    FlattenLength(IdBytes, p.equipment, 64);
    FlattenLength(IdBytes, q.equipment, 64);
    SevenParts(n, s, u, Le(p.prestige, 4), Count(p), e, Flatten(ItemBytes, p.inventory),
               n', s', u', Le(q.prestige, 4), Count(q), e', Flatten(ItemBytes, q.inventory));
    FlattenInjective(Le8, Numbers(p), Numbers(q), 8);
    FlattenInjective(Le8, p.skill, q.skill, 8);
    FlattenInjective(Le4, p.upgrade, q.upgrade, 4);
    FlattenInjective(IdBytes, p.equipment, q.equipment, 64);
    assert Le4(p.prestige) == Le4(q.prestige);
    assert Count(p)[0] == Count(q)[0];
    FlattenInjective(ItemBytes, p.inventory, q.inventory, 68);
    assert Numbers(p)[0] == Numbers(q)[0] && Numbers(p)[1] == Numbers(q)[1] && Numbers(p)[2] == Numbers(q)[2];
    assert Numbers(p)[3] == Numbers(q)[3] && Numbers(p)[4] == Numbers(q)[4];
  }

  lemma SevenParts(a: Bytes, b: Bytes, c: Bytes, d: Bytes, e: Bytes, f: Bytes, g: Bytes,
                   a': Bytes, b': Bytes, c': Bytes, d': Bytes, e': Bytes, f': Bytes, g': Bytes)
    requires a + b + c + d + e + f + g == a' + b' + c' + d' + e' + f' + g'
    requires |a| == |a'| && |b| == |b'| && |c| == |c'| && |d| == |d'| && |e| == |e'| && |f| == |f'|
    ensures a == a' && b == b' && c == c' && d == d' && e == e' && f == f' && g == g'
  {
    SplitHead(a + b + c + d + e + f, a' + b' + c' + d' + e' + f', g, g');
    SplitHead(a + b + c + d + e, a' + b' + c' + d' + e', f, f');
    SplitHead(a + b + c + d, a' + b' + c' + d', e, e');
    SplitHead(a + b + c, a' + b' + c', d, d');
    SplitHead(a + b, a' + b', c, c');
    SplitHead(a, a', b, b');
  }

  /** The four header words and the body are where they should be. */
  lemma FileParts(body: Bytes, f: Bytes)
    requires f == File(body)
    ensures |f| == HEADER + |body|
    ensures f[..4] == MAGIC && f[4..8] == Le(1, 4) && f[8..12] == Le(|f|, 4)
    ensures f[12..16] == Le(Crc(body), 4) && f[16..] == body
  {
    hide Le, Crc;
    FourWords(MAGIC, Le(1, 4), Le(HEADER + |body|, 4), Le(Crc(body), 4), body);
  }

  lemma FileFromParts(f: Bytes)
    requires |f| >= HEADER
    requires f[..4] == MAGIC && f[4..8] == Le(1, 4) && f[8..12] == Le(|f|, 4) && f[12..16] == Le(Crc(f[16..]), 4)
    ensures f == File(f[16..])
  {
    hide Le, Crc;
    assert f == f[..4] + f[4..8] + f[8..12] + f[12..16] + f[16..];
  }

  /** No two saves share an image. */
  lemma ImageInjective(p: Save, q: Save)
    requires Image(p) == Image(q)
    ensures p == q
  {
    FileParts(Body(p), Image(p));
    FileParts(Body(q), Image(q));
    BodyInjective(p, q);
  }

  // ----- checking and writing

  method IsValid(p: Save) returns (ok: bool)
    ensures ok == ValidSave(p)
  {
    var t := Texts(p);
    if |p.inventory| > INVENTORY {
      return false;
    }
    for i := 0 to |p.inventory|
      invariant forall k :: 0 <= k < i ==> IdValid(t.inventory[k].id) && t.inventory[k].quantity > 0
      invariant forall k, j :: 0 <= j < k < i ==> t.inventory[k].id != t.inventory[j].id
    {
      var named := CheckId(t.inventory[i].id);
      if !named || t.inventory[i].quantity == 0 {
        return false;
      }
      for j := 0 to i
        invariant forall k :: 0 <= k < j ==> t.inventory[i].id != t.inventory[k].id
      {
        if t.inventory[i].id == t.inventory[j].id {
          return false;
        }
      }
    }
    for i := 0 to 4
      invariant forall k :: 0 <= k < i ==> EquipmentOk(t, k)
    {
      var named := CheckId(t.equipment[i]);
      if t.equipment[i] != [] && (!named || Quantity(t, t.equipment[i]) == 0) {
        assert !EquipmentOk(t, i);
        return false;
      }
    }
    assert forall i :: 0 <= i < 4 ==> EquipmentOk(t, i);
    ok := true;
  }

  /** The buffer holds these bytes, then zeros to its end. */
  ghost predicate Holds(out: array<Byte>, written: Bytes)
    reads out
  {
    && |written| <= out.Length && out[..|written|] == written
    && forall k :: |written| <= k < out.Length ==> out[k] == 0
  }

  method Put(out: array<Byte>, at: nat, v: nat, n: nat)
    requires at + n <= out.Length
    modifies out
    ensures out[..] == old(out[..at]) + Le(v, n) + old(out[at + n..])
  {
    hide Le;
    var rest := v;
    ghost var le := Le(v, n);
    for k := 0 to n
      invariant le[k..] == Le(rest, n - k)
      invariant forall i :: 0 <= i < k ==> out[at + i] == le[i]
      invariant forall i :: 0 <= i < at || at + k <= i < out.Length ==> out[i] == old(out[i])
    {
      LeNext(rest, n - k);
      assert le[k] == le[k..][0] && le[k + 1..] == le[k..][1..];
      out[at + k] := rest % 256;
      rest := rest / 256;
    }
    assert out[at..at + n] == le;
    assert out[..] == out[..at] + out[at..at + n] + out[at + n..];
  }

  lemma LeNext(v: nat, n: nat)
    requires n > 0
    ensures Le(v, n)[0] == v % 256 && Le(v, n)[1..] == Le(v / 256, n - 1)
  {}

  method PutBytes(out: array<Byte>, at: nat, s: Bytes, ghost written: Bytes)
    requires Holds(out, written) && at == |written| && at + |s| <= out.Length
    modifies out
    ensures Holds(out, written + s)
  {
    for k := 0 to |s|
      invariant Holds(out, written + s[..k])
    {
      out[at + k] := s[k];
      assert written + s[..k + 1] == (written + s[..k]) + [s[k]];
    }
    assert s[..|s|] == s;
  }

  method PutWord(out: array<Byte>, at: nat, v: nat, n: nat, ghost written: Bytes)
    requires Holds(out, written) && at == |written| && at + n <= out.Length
    modifies out
    ensures Holds(out, written + Le(v, n))
  {
    Put(out, at, v, n);
    assert out[..at + n] == out[..][..at + n];
    assert forall k :: at + n <= k < out.Length ==> out[k] == out[..][k];
  }

  method PutWide(out: array<Byte>, start: nat, vs: seq<U64>, ghost written: Bytes) returns (at: nat)
    requires Holds(out, written) && start == |written| && start + 8 * |vs| <= out.Length
    modifies out
    ensures at == start + 8 * |vs| && Holds(out, written + Flatten(Le8, vs))
    ensures |Flatten(Le8, vs)| == 8 * |vs|
  {
    hide Le;
    Widths();
    at := start;
    for i := 0 to |vs|
      invariant at == start + 8 * i && |Flatten(Le8, vs[..i])| == 8 * i
      invariant Holds(out, written + Flatten(Le8, vs[..i]))
    {
      assert vs[..i + 1] == vs[..i] + [vs[i]];
      FlattenSnoc(Le8, vs[..i], vs[i]);
      Associates(written, Flatten(Le8, vs[..i]), Le8(vs[i]));
      PutWord(out, at, vs[i], 8, written + Flatten(Le8, vs[..i]));
      at := at + 8;
    }
    assert vs[..|vs|] == vs;
  }

  method PutNarrow(out: array<Byte>, start: nat, vs: seq<Word>, ghost written: Bytes) returns (at: nat)
    requires Holds(out, written) && start == |written| && start + 4 * |vs| <= out.Length
    modifies out
    ensures at == start + 4 * |vs| && Holds(out, written + Flatten(Le4, vs))
    ensures |Flatten(Le4, vs)| == 4 * |vs|
  {
    hide Le;
    Widths();
    at := start;
    for i := 0 to |vs|
      invariant at == start + 4 * i && |Flatten(Le4, vs[..i])| == 4 * i
      invariant Holds(out, written + Flatten(Le4, vs[..i]))
    {
      assert vs[..i + 1] == vs[..i] + [vs[i]];
      FlattenSnoc(Le4, vs[..i], vs[i]);
      Associates(written, Flatten(Le4, vs[..i]), Le4(vs[i]));
      PutWord(out, at, vs[i], 4, written + Flatten(Le4, vs[..i]));
      at := at + 4;
    }
    assert vs[..|vs|] == vs;
  }

  /** Copies an ID's characters only: the rest of its field is already zero. */
  method PutId(out: array<Byte>, at: nat, id: Buffer, ghost written: Bytes)
    requires Holds(out, written) && at == |written| && at + ITEM_ID <= out.Length
    modifies out
    ensures Holds(out, written + ZeroPad(UpToNul(id)))
  {
    var n := Length(id);
    PutBytes(out, at, id[..n], written);
    assert out[at + n..at + ITEM_ID] == seq(ITEM_ID - n, _ => 0);
    assert out[..at + ITEM_ID] == written + ZeroPad(UpToNul(id));
  }

  method PutEquipment(out: array<Byte>, start: nat, ids: seq<Buffer>, ghost zeroed: seq<Buffer>, ghost written: Bytes)
    returns (at: nat)
    requires Holds(out, written) && start == |written| && start + 64 * |ids| <= out.Length
    requires |zeroed| == |ids| && forall i :: 0 <= i < |ids| ==> zeroed[i] == ZeroPad(UpToNul(ids[i]))
    modifies out
    ensures at == start + 64 * |ids| && Holds(out, written + Flatten(IdBytes, zeroed))
    ensures |Flatten(IdBytes, zeroed)| == 64 * |ids|
  {
    at := start;
    for i := 0 to |ids|
      invariant at == start + 64 * i && |Flatten(IdBytes, zeroed[..i])| == 64 * i
      invariant Holds(out, written + Flatten(IdBytes, zeroed[..i]))
    {
      assert zeroed[..i + 1] == zeroed[..i] + [zeroed[i]];
      FlattenSnoc(IdBytes, zeroed[..i], zeroed[i]);
      Associates(written, Flatten(IdBytes, zeroed[..i]), zeroed[i]);
      PutId(out, at, ids[i], written + Flatten(IdBytes, zeroed[..i]));
      at := at + ITEM_ID;
    }
    assert zeroed[..|zeroed|] == zeroed;
  }

  method PutItems(out: array<Byte>, start: nat, items: seq<Owned<Buffer>>, ghost zeroed: seq<Owned<Buffer>>,
    ghost written: Bytes)
    returns (at: nat)
    requires Holds(out, written) && start == |written| && start + 68 * |items| <= out.Length
    requires |zeroed| == |items|
    requires forall i :: 0 <= i < |items| ==> zeroed[i] == items[i].(id := ZeroPad(UpToNul(items[i].id)))
    modifies out
    ensures at == start + 68 * |items| && Holds(out, written + Flatten(ItemBytes, zeroed))
    ensures |Flatten(ItemBytes, zeroed)| == 68 * |items|
  {
    hide Le;
    at := start;
    for i := 0 to |items|
      invariant at == start + 68 * i && |Flatten(ItemBytes, zeroed[..i])| == 68 * i
      invariant Holds(out, written + Flatten(ItemBytes, zeroed[..i]))
    {
      ghost var before := written + Flatten(ItemBytes, zeroed[..i]);
      assert zeroed[..i + 1] == zeroed[..i] + [zeroed[i]];
      FlattenSnoc(ItemBytes, zeroed[..i], zeroed[i]);
      Associates(written, Flatten(ItemBytes, zeroed[..i]), ItemBytes(zeroed[i]));
      PutId(out, at, items[i].id, before);
      at := at + ITEM_ID;
      PutWord(out, at, items[i].quantity, 4, before + zeroed[i].id);
      Associates(before, zeroed[i].id, Le(items[i].quantity, 4));
      at := at + 4;
    }
    assert zeroed[..|zeroed|] == zeroed;
  }

  method PutBody(p: Save, out: array<Byte>, ghost head: Bytes) returns (at: nat)
    requires out.Length == SAVE_MAX && |head| == HEADER && Holds(out, head) && |p.inventory| <= INVENTORY
    modifies out
    ensures at == HEADER + |Body(Zeroed(p))| <= SAVE_MAX && out[..at] == head + Body(Zeroed(p))
  {
    hide Le, Flatten;
    ghost var z := Zeroed(p);
    at := PutWide(out, HEADER, Numbers(p), head);
    ghost var w := head + Flatten(Le8, Numbers(p));
    at := PutWide(out, at, p.skill, w);
    w := w + Flatten(Le8, p.skill);
    at := PutNarrow(out, at, p.upgrade, w);
    w := w + Flatten(Le4, p.upgrade);
    PutWord(out, at, p.prestige, 4, w);
    w := w + Le(p.prestige, 4);
    at := at + 4;
    PutBytes(out, at, Count(p), w);
    w := w + Count(p);
    at := at + 1;
    at := PutEquipment(out, at, p.equipment, z.equipment, w);
    w := w + Flatten(IdBytes, z.equipment);
    at := PutItems(out, at, p.inventory, z.inventory, w);
    w := w + Flatten(ItemBytes, z.inventory);
    BodyAfter(z, head, w);
  }

  lemma BodyAfter(z: Save, head: Bytes, w: Bytes)
    requires w == head + Flatten(Le8, Numbers(z)) + Flatten(Le8, z.skill) + Flatten(Le4, z.upgrade) + Le(z.prestige, 4)
                  + Count(z) + Flatten(IdBytes, z.equipment) + Flatten(ItemBytes, z.inventory)
    ensures w == head + Body(z)
  {}

  /** Writes the image of the profile with its IDs zero-padded; 0 exactly when the profile is not valid. */
  method Encode(p: Save, out: array<Byte>) returns (n: nat)
    requires out.Length == SAVE_MAX
    modifies out
    ensures n == 0 <==> !ValidSave(p)
    ensures !ValidSave(p) ==> out[..] == old(out[..])
    ensures ValidSave(p) ==> n <= SAVE_MAX && out[..n] == Image(Zeroed(p))
  {
    var ok := IsValid(p);
    if !ok {
      return 0;
    }
    hide Body, ValidSave;
    Begin(out);
    n := PutBody(p, out, BlankHeader());
    Seal(out, n, Body(Zeroed(p)));
  }

  /** Magic and version, with the size and CRC still to come. */
  ghost function BlankHeader(): (r: Bytes)
    ensures |r| == HEADER
  {
    MAGIC + Le(1, 4) + [0, 0, 0, 0] + [0, 0, 0, 0]
  }

  method Begin(out: array<Byte>)
    requires out.Length == SAVE_MAX
    modifies out
    ensures Holds(out, BlankHeader())
  {
    hide Le;
    for k := 0 to SAVE_MAX
      invariant forall j :: 0 <= j < k ==> out[j] == 0
    {
      out[k] := 0;
    }
    PutBytes(out, 0, MAGIC, []);
    assert [] + MAGIC == MAGIC;
    PutWord(out, 4, 1, 4, MAGIC);
  }

  /** The size, then the CRC of everything after the header. */
  method Seal(out: array<Byte>, n: nat, ghost body: Bytes)
    requires n == HEADER + |body| <= out.Length && out[..n] == BlankHeader() + body
    modifies out
    ensures out[..n] == File(body)
  {
    hide Le, Crc;
    Put(out, 8, n, 4);
    Overwritten(old(out[..]), out[..], 8, Le(n, 4));
    assert out[HEADER..n] == old(out[..n])[HEADER..];
    var v := ComputeCrc(out[HEADER..n]);
    label sized: ghost var sized := out[..];
    Put(out, 12, v, 4);
    Overwritten(sized, out[..], 12, Le(v, 4));
    SealedHeader(old(out[..]), sized, out[..], n, body);
  }

  lemma Overwritten(s: Bytes, t: Bytes, at: nat, w: Bytes)
    requires at + |w| <= |s| && t == s[..at] + w + s[at + |w|..]
    ensures |t| == |s| && t[..at] == s[..at] && t[at..at + |w|] == w && t[at + |w|..] == s[at + |w|..]
  {}

  lemma SealedHeader(s: Bytes, t: Bytes, u: Bytes, n: nat, body: Bytes)
    requires n == HEADER + |body| <= |s| == |t| == |u| && s[..n] == BlankHeader() + body
    requires t[..8] == s[..8] && t[8..12] == Le(n, 4) && t[12..] == s[12..]
    requires u[..12] == t[..12] && u[12..16] == Le(Crc(body), 4) && u[16..] == t[16..]
    ensures u[..n] == File(body)
  {
    hide Le, Crc;
    assert u[..8] == u[..12][..8] == t[..12][..8] == t[..8] == s[..8] == s[..n][..8] == MAGIC + Le(1, 4);
    assert u[..4] == u[..8][..4] == MAGIC && u[4..8] == u[..8][4..] == Le(1, 4);
    assert u[8..12] == u[..12][8..] == t[..12][8..] == t[8..12] == Le(n, 4);
    assert u[16..n] == u[16..][..n - 16] == t[12..][4..][..n - 16] == s[12..][4..][..n - 16] == s[..n][16..] == body;
    assert u[..n] == u[..4] + u[4..8] + u[8..12] + u[12..16] + u[16..n];
  }

  // ----- reading

  lemma ReadBack(data: Bytes, at: nat, n: nat)
    requires at + n <= |data|
    ensures Value(data[at..at + n]) < Pow256(n)
    ensures Le(Value(data[at..at + n]), n) == data[at..at + n]
  {
    PutOfGet(data[at..at + n]);
  }

  method Get(data: Bytes, at: nat, n: nat) returns (v: nat)
    requires at + n <= |data|
    ensures v == Value(data[at..at + n])
  {
    v := 0;
    var scale: nat := 1;
    for k := 0 to n
      invariant scale == Pow256(k)
      invariant v == Value(data[at..at + k])
    {
      assert data[at..at + k + 1] == data[at..at + k] + [data[at + k]];
      ValueLast(data[at..at + k], data[at + k]);
      v := v + data[at + k] * scale;
      scale := 256 * scale;
    }
  }

  method GetWide(data: Bytes, start: nat, n: nat) returns (vs: seq<U64>, at: nat)
    requires start + 8 * n <= |data|
    ensures at == start + 8 * n && |vs| == n && data[start..at] == Flatten(Le8, vs)
  {
    hide Le, Value;
    Sizes();
    vs, at := [], start;
    for i := 0 to n
      invariant at == start + 8 * i && |vs| == i && data[start..at] == Flatten(Le8, vs)
    {
      ReadBack(data, at, 8);
      var v: U64 := Get(data, at, 8);
      FlattenSnoc(Le8, vs, v);
      assert data[start..at + 8] == data[start..at] + data[at..at + 8];
      vs, at := vs + [v], at + 8;
    }
  }

  method GetNarrow(data: Bytes, start: nat, n: nat) returns (vs: seq<Word>, at: nat)
    requires start + 4 * n <= |data|
    ensures at == start + 4 * n && |vs| == n && data[start..at] == Flatten(Le4, vs)
  {
    hide Le, Value;
    Sizes();
    vs, at := [], start;
    for i := 0 to n
      invariant at == start + 4 * i && |vs| == i && data[start..at] == Flatten(Le4, vs)
    {
      ReadBack(data, at, 4);
      var v: Word := Get(data, at, 4);
      FlattenSnoc(Le4, vs, v);
      assert data[start..at + 4] == data[start..at] + data[at..at + 4];
      vs, at := vs + [v], at + 4;
    }
  }

  /** Reads ID fields until one has no NUL. */
  method GetEquipment(data: Bytes, start: nat, n: nat) returns (ok: bool, ids: seq<Buffer>, at: nat, ghost bad: nat)
    requires start + 64 * n <= |data|
    ensures ok ==> at == start + 64 * n && |ids| == n && data[start..at] == Flatten(IdBytes, ids)
    ensures !ok ==> bad < n && 0 !in data[start + 64 * bad..start + 64 * bad + 64]
  {
    ok, ids, at, bad := true, [], start, 0;
    for i := 0 to n
      invariant at == start + 64 * i && |ids| == i && data[start..at] == Flatten(IdBytes, ids)
    {
      var id: Buffer := data[at..at + ITEM_ID];
      if 0 !in id {
        ok, bad := false, i;
        return;
      }
      FlattenSnoc(IdBytes, ids, id);
      assert data[start..at + 64] == data[start..at] + data[at..at + 64];
      ids, at := ids + [id], at + ITEM_ID;
    }
  }

  method GetItems(data: Bytes, start: nat, n: nat) returns (ok: bool, items: seq<Owned<Buffer>>, at: nat,
    ghost bad: nat)
    requires start + 68 * n <= |data|
    ensures ok ==> at == start + 68 * n && |items| == n && data[start..at] == Flatten(ItemBytes, items)
    ensures !ok ==> bad < n && 0 !in data[start + 68 * bad..start + 68 * bad + 64]
  {
    hide Le, Value, Flatten, ItemBytes;
    NoItems();
    ok, items, at, bad := true, [], start, 0;
    for i := 0 to n
      invariant at == start + 68 * i && |items| == i && data[start..at] == Flatten(ItemBytes, items)
    {
      var id: Buffer := data[at..at + ITEM_ID];
      if 0 !in id {
        ok, bad := false, i;
        return;
      }
      ReadBack(data, at + ITEM_ID, 4);
      Pow256Four();
      var quantity := Get(data, at + ITEM_ID, 4);
      ItemRead(data, start, at, items, id, quantity);
      items, at := items + [Owned(id, quantity)], at + 68;
    }
  }

  lemma NoItems()
    ensures Flatten(ItemBytes, []) == []
  {}

  lemma Pow256Four()
    ensures Pow256(4) == 0x1_0000_0000
  {
    Sizes();
  }

  /** One more item was read from the next 68 bytes. */
  lemma ItemRead(data: Bytes, start: nat, at: nat, items: seq<Owned<Buffer>>, id: Buffer, quantity: Word)
    requires start <= at && at + 68 <= |data| && data[start..at] == Flatten(ItemBytes, items)
    requires id == data[at..at + 64] && Le(quantity, 4) == data[at + 64..at + 68]
    ensures data[start..at + 68] == Flatten(ItemBytes, items + [Owned(id, quantity)])
  {
    hide Le, Flatten;
    FlattenSnoc(ItemBytes, items, Owned(id, quantity));
    assert data[at..at + 68] == data[at..at + 64] + data[at + 64..at + 68];
    assert data[start..at + 68] == data[start..at] + data[at..at + 68];
  }

  /** Some valid save has this image. */
  ghost predicate Saved(data: Bytes) {
    exists q: Save :: ValidSave(q) && Image(q) == data
  }

  /** Accepts exactly the images of valid saves, and finds the one save behind each. */
  method Decode(data: Bytes) returns (r: Option<Save>)
    ensures r.Some? ==> ValidSave(r.value) && Image(r.value) == data
    ensures r.None? ==> !Saved(data)
  {
    hide ValidSave, Le, Value, Flatten, Crc;
    if |data| < BASE || |data| > SAVE_MAX || data[..4] != MAGIC {
      HeaderOfSaved(data);
      return None;
    }
    var version := Get(data, 4, 4);
    var size := Get(data, 8, 4);
    var check := Get(data, 12, 4);
    var crc := ComputeCrc(data[HEADER..]);
    HeaderWords(data);
    if version != 1 || size != |data| || check != crc {
      HeaderOfSaved(data);
      return None;
    }
    var numbers, at := GetWide(data, HEADER, 5);
    var skill, upgrade, prestige;
    skill, at := GetWide(data, at, SKILLS);
    upgrade, at := GetNarrow(data, at, UPGRADES);
    prestige := Get(data, at, 4);
    ReadBack(data, at, 4);
    Sizes();
    at := at + 4;
    var count := data[at];
    at := at + 1;
    if count > INVENTORY || |data| != BASE + count * 68 {
      CountOfSaved(data);
      return None;
    }
    var ok, equipment, items;
    ghost var bad;
    ok, equipment, at, bad := GetEquipment(data, at, 4);
    if !ok {
      UnterminatedEquipment(data, bad);
      return None;
    }
    ok, items, at, bad := GetItems(data, at, count);
    if !ok {
      UnterminatedItem(data, count, bad);
      return None;
    }
    var q: Save := Profile(numbers[0], numbers[1], numbers[2], numbers[3], numbers[4],
                           skill, upgrade, prestige, equipment, items);
    BodyRead(data, q, numbers);
    FileFromParts(data);
    ok := IsValid(q);
    if !ok {
      OnlyOneSave(data, q);
      return None;
    }
    r := Some(q);
  }

  lemma HeaderWords(data: Bytes)
    requires |data| >= HEADER && |data| <= SAVE_MAX
    ensures Value(data[4..8]) == 1 <==> data[4..8] == Le(1, 4)
    ensures Value(data[8..12]) == |data| <==> data[8..12] == Le(|data|, 4)
    ensures Value(data[12..16]) == Crc(data[16..]) <==> data[12..16] == Le(Crc(data[16..]), 4)
  {
    Sizes();
    ReadBack(data, 4, 4);
    ReadBack(data, 8, 4);
    ReadBack(data, 12, 4);
    GetOfPut(1, 4);
    GetOfPut(|data|, 4);
    GetOfPut(Crc(data[16..]), 4);
  }

  lemma HeaderOfSaved(data: Bytes)
    ensures Saved(data) ==> BASE <= |data| <= SAVE_MAX && data[..4] == MAGIC && data[4..8] == Le(1, 4)
                            && data[8..12] == Le(|data|, 4) && data[12..16] == Le(Crc(data[16..]), 4)
  {
    if Saved(data) {
      var q: Save :| ValidSave(q) && Image(q) == data;
      ImageSize(q);
      FileParts(Body(q), data);
    }
  }

  lemma BodyParts(q: Save)
    ensures |Body(q)| == BASE - HEADER + 68 * |q.inventory|
    ensures Body(q)[128] == |q.inventory|
    ensures Body(q)[129..385] == Flatten(IdBytes, q.equipment)
    ensures Body(q)[385..] == Flatten(ItemBytes, q.inventory)
  {
    hide Flatten, Le;
    Widths();
    FlattenLength(Le8, Numbers(q), 8);
    FlattenLength(Le8, q.skill, 8);
    FlattenLength(Le4, q.upgrade, 4);
    FlattenLength(IdBytes, q.equipment, 64);
    FlattenLength(ItemBytes, q.inventory, 68);
    var pre := Flatten(Le8, Numbers(q)) + Flatten(Le8, q.skill) + Flatten(Le4, q.upgrade) + Le(q.prestige, 4);
    assert |pre| == 128 && Body(q) == pre + Count(q) + Flatten(IdBytes, q.equipment) + Flatten(ItemBytes, q.inventory);
  }

  lemma CountOfSaved(data: Bytes)
    ensures Saved(data) ==> |data| > 144 && data[144] <= INVENTORY && |data| == BASE + 68 * data[144] as int
  {
    if Saved(data) {
      var q: Save :| ValidSave(q) && Image(q) == data;
      ImageSize(q);
      BodyParts(q);
      FileParts(Body(q), data);
      assert data[144] == data[16..][128];
    }
  }

  /** An ID field without a NUL is in no saved file. */
  lemma UnterminatedEquipment(data: Bytes, i: nat)
    requires i < 4 && |data| >= BASE && 0 !in data[145 + 64 * i..145 + 64 * i + 64]
    ensures !Saved(data)
  {
    if Saved(data) {
      var q: Save :| ValidSave(q) && Image(q) == data;
      EquipmentTerminated(q, data, i);
    }
  }

  lemma UnterminatedItem(data: Bytes, count: nat, i: nat)
    requires i < count && |data| == BASE + 68 * count && 0 !in data[BASE + 68 * i..BASE + 68 * i + 64]
    ensures !Saved(data)
  {
    if Saved(data) {
      var q: Save :| ValidSave(q) && Image(q) == data;
      ImageSize(q);
      ItemTerminated(q, data, i);
    }
  }

  lemma EquipmentTerminated(q: Save, data: Bytes, i: nat)
    requires ValidSave(q) && Image(q) == data && i < 4
    ensures |data| >= BASE && 0 in data[145 + 64 * i..145 + 64 * i + 64]
  {
    EquipmentInImage(q, data, i);
    assert EquipmentOk(Texts(q), i);
    Terminated(q.equipment[i]);
  }

  lemma ItemTerminated(q: Save, data: Bytes, i: nat)
    requires ValidSave(q) && Image(q) == data && i < |q.inventory|
    ensures |data| >= BASE + 68 * i + 68 && 0 in data[BASE + 68 * i..BASE + 68 * i + 64]
  {
    ItemInImage(q, data, i);
    assert IdValid(Texts(q).inventory[i].id);
    Terminated(q.inventory[i].id);
  }

  lemma Terminated(id: Buffer)
    requires |UpToNul(id)| < ITEM_ID
    ensures 0 in id
  {
    assert id[|UpToNul(id)|] == 0;
  }

  lemma EquipmentInImage(q: Save, data: Bytes, i: nat)
    requires Image(q) == data && i < 4
    ensures |data| >= BASE && data[145 + 64 * i..145 + 64 * i + 64] == q.equipment[i]
  {
    hide Flatten, Le, Crc;
    ImageSize(q);
    BodyParts(q);
    FileParts(Body(q), data);
    Widths();
    FlattenPiece(IdBytes, q.equipment, 64, i);
    assert data[145..401] == data[16..][129..385];
    assert data[145 + 64 * i..145 + 64 * i + 64] == data[145..401][64 * i..64 * i + 64];
  }

  lemma ItemInImage(q: Save, data: Bytes, i: nat)
    requires Image(q) == data && i < |q.inventory|
    ensures |data| >= BASE + 68 * i + 68 && data[BASE + 68 * i..BASE + 68 * i + 64] == q.inventory[i].id
    ensures |data| > 144 && data[144] == |q.inventory|
  {
    hide Flatten, Le, Crc;
    ImageSize(q);
    BodyParts(q);
    FileParts(Body(q), data);
    Widths();
    FlattenPiece(ItemBytes, q.inventory, 68, i);
    assert data[144] == data[16..][128];
    assert data[401..] == data[16..][385..];
    var piece := ItemBytes(q.inventory[i]);
    assert data[BASE + 68 * i..BASE + 68 * i + 68] == data[401..][68 * i..68 * i + 68] == piece;
    assert data[BASE + 68 * i..BASE + 68 * i + 64] == piece[..64];
  }

  // ----- where each field stands

  ghost predicate WideAt(s: Bytes, at: nat, v: U64) { at + 8 <= |s| && s[at..at + 8] == Le(v, 8) }

  ghost predicate NarrowAt(s: Bytes, at: nat, v: Word) { at + 4 <= |s| && s[at..at + 4] == Le(v, 4) }

  lemma Sections(a: Bytes, b: Bytes, c: Bytes, d: Bytes, rest: Bytes)
    requires |a| == 40 && |b| == 64 && |c| == 20 && |d| == 4
    ensures var t := a + b + c + d + rest;
      t[0..40] == a && t[40..104] == b && t[104..124] == c && t[124..128] == d
  {}

  lemma BodySections(p: Save)
    ensures |Body(p)| >= 128 && Body(p)[0..40] == Flatten(Le8, Numbers(p)) && Body(p)[40..104] == Flatten(Le8, p.skill)
    ensures Body(p)[104..124] == Flatten(Le4, p.upgrade) && Body(p)[124..128] == Le(p.prestige, 4)
  {
    hide Flatten, Le;
    Widths();
    FlattenLength(Le8, Numbers(p), 8);
    FlattenLength(Le8, p.skill, 8);
    FlattenLength(Le4, p.upgrade, 4);
    var n, k, u, e := Flatten(Le8, Numbers(p)), Flatten(Le8, p.skill), Flatten(Le4, p.upgrade), Le(p.prestige, 4);
    var rest := Count(p) + Flatten(IdBytes, p.equipment) + Flatten(ItemBytes, p.inventory);
    Sections(n, k, u, e, rest);
    assert Body(p) == n + k + u + e + rest;
  }

  /** The body stands after the header. */
  lemma InBody(p: Save, at: nat, n: nat)
    requires at + n <= |Body(p)|
    ensures 16 + at + n <= |Image(p)| && Image(p)[16 + at..16 + at + n] == Body(p)[at..at + n]
  {
    FileParts(Body(p), Image(p));
    hide *;
    var s := Image(p);
    Nested(s, 16, |s|, at, at + n);
    assert s[16..|s|] == s[16..];
  }

  lemma WideOf(p: Save, from: nat, vs: seq<U64>, i: nat)
    requires from + 8 * |vs| <= |Body(p)| && Body(p)[from..from + 8 * |vs|] == Flatten(Le8, vs) && i < |vs|
    ensures WideAt(Image(p), 16 + from + 8 * i, vs[i])
  {
    hide Flatten, Le, Body, Image;
    Widths();
    FlattenPieceIn(Le8, vs, 8, i, Body(p), from);
    InBody(p, from + 8 * i, 8);
  }

  lemma NarrowOf(p: Save, from: nat, vs: seq<Word>, i: nat)
    requires from + 4 * |vs| <= |Body(p)| && Body(p)[from..from + 4 * |vs|] == Flatten(Le4, vs) && i < |vs|
    ensures NarrowAt(Image(p), 16 + from + 4 * i, vs[i])
  {
    hide Flatten, Le, Body, Image;
    Widths();
    FlattenPieceIn(Le4, vs, 4, i, Body(p), from);
    InBody(p, from + 4 * i, 4);
  }

  lemma HeaderLaidOut(p: Save)
    ensures var s := Image(p);
      && |s| == 401 + 68 * |p.inventory| && s[0..4] == [0x4D, 0x50, 0x52, 0x47] && s[4..8] == [1, 0, 0, 0]
      && NarrowAt(s, 8, |s|) && NarrowAt(s, 12, Crc(s[16..]))
  {
    OneWord();
    hide Crc, Body, Le;
    ImageSize(p);
    FileParts(Body(p), Image(p));
    hide Image, File;
  }

  lemma OneWord()
    ensures Le(1, 4) == [1, 0, 0, 0]
  {
    assert Le(1, 4) == [1] + Le(0, 3);
  }

  lemma CountersLaidOut(p: Save)
    ensures var s := Image(p);
      && WideAt(s, 16, p.gold) && WideAt(s, 24, p.experience) && WideAt(s, 32, p.earnedGold) && WideAt(s, 40, p.kills)
      && WideAt(s, 48, p.waves) && (forall i :: 0 <= i < 8 ==> WideAt(s, 56 + 8 * i, p.skill[i]))
  {
    hide Flatten, Body, Image, WideAt;
    BodySections(p);
    WideOf(p, 0, Numbers(p), 0);
    WideOf(p, 0, Numbers(p), 1);
    WideOf(p, 0, Numbers(p), 2);
    WideOf(p, 0, Numbers(p), 3);
    WideOf(p, 0, Numbers(p), 4);
    forall i | 0 <= i < 8 ensures WideAt(Image(p), 56 + 8 * i, p.skill[i]) {
      WideOf(p, 40, p.skill, i);
    }
  }

  lemma UpgradesLaidOut(p: Save)
    ensures var s := Image(p);
      (forall i :: 0 <= i < 5 ==> NarrowAt(s, 120 + 4 * i, p.upgrade[i])) && NarrowAt(s, 140, p.prestige)
  {
    hide Flatten, Body, Le;
    BodySections(p);
    forall i | 0 <= i < 5 ensures NarrowAt(Image(p), 120 + 4 * i, p.upgrade[i]) {
      NarrowOf(p, 104, p.upgrade, i);
    }
    FileParts(Body(p), Image(p));
    assert Image(p)[140..144] == Image(p)[16..][124..128];
  }

  lemma ItemsLaidOut(p: Save)
    ensures var s := Image(p);
      && |s| == 401 + 68 * |p.inventory| && s[144] == |p.inventory|
      && (forall i :: 0 <= i < 4 ==> s[145 + 64 * i..209 + 64 * i] == p.equipment[i])
      && (forall i :: 0 <= i < |p.inventory| ==> s[401 + 68 * i..465 + 68 * i] == p.inventory[i].id)
      && (forall i :: 0 <= i < |p.inventory| ==> NarrowAt(s, 465 + 68 * i, p.inventory[i].quantity))
  {
    hide Flatten, Body, Le, Image;
    var s := Image(p);
    ImageSize(p);
    CountThere(p);
    forall i | 0 <= i < 4 ensures s[145 + 64 * i..209 + 64 * i] == p.equipment[i] {
      EquipmentInImage(p, s, i);
    }
    forall i | 0 <= i < |p.inventory|
      ensures s[401 + 68 * i..465 + 68 * i] == p.inventory[i].id
      ensures NarrowAt(s, 465 + 68 * i, p.inventory[i].quantity)
    {
      ItemInImage(p, s, i);
      QuantityInImage(p, i);
    }
  }

  lemma CountThere(p: Save)
    ensures |Image(p)| > 144 && Image(p)[144] == |p.inventory|
  {
    hide Flatten, Body;
    BodyParts(p);
    FileParts(Body(p), Image(p));
    assert Image(p)[144] == Image(p)[16..][128];
  }

  lemma QuantityInImage(p: Save, i: nat)
    requires i < |p.inventory|
    ensures NarrowAt(Image(p), 465 + 68 * i, p.inventory[i].quantity)
  {
    hide Flatten, Body, Le;
    BodyParts(p);
    FileParts(Body(p), Image(p));
    Widths();
    FlattenPiece(ItemBytes, p.inventory, 68, i);
    var s, piece := Image(p), ItemBytes(p.inventory[i]);
    assert s[401..] == s[16..][385..];
    assert s[401 + 68 * i..469 + 68 * i] == s[401..][68 * i..68 * i + 68] == piece;
    assert s[465 + 68 * i..469 + 68 * i] == s[401 + 68 * i..469 + 68 * i][64..68] == piece[64..68];
  }

  /** Every field of the save at its place in the image. */
  lemma ImageLaidOut(p: Save)
    ensures var s := Image(p);
      && |s| == 401 + 68 * |p.inventory| && s[0..4] == [0x4D, 0x50, 0x52, 0x47] && s[4..8] == [1, 0, 0, 0]
      && NarrowAt(s, 8, |s|) && NarrowAt(s, 12, Crc(s[16..]))
      && WideAt(s, 16, p.gold) && WideAt(s, 24, p.experience) && WideAt(s, 32, p.earnedGold) && WideAt(s, 40, p.kills)
      && WideAt(s, 48, p.waves) && (forall i :: 0 <= i < 8 ==> WideAt(s, 56 + 8 * i, p.skill[i]))
      && (forall i :: 0 <= i < 5 ==> NarrowAt(s, 120 + 4 * i, p.upgrade[i])) && NarrowAt(s, 140, p.prestige)
      && s[144] == |p.inventory|
      && (forall i :: 0 <= i < 4 ==> s[145 + 64 * i..209 + 64 * i] == p.equipment[i])
      && (forall i :: 0 <= i < |p.inventory| ==> s[401 + 68 * i..465 + 68 * i] == p.inventory[i].id)
      && (forall i :: 0 <= i < |p.inventory| ==> NarrowAt(s, 465 + 68 * i, p.inventory[i].quantity))
  {
    hide Image, WideAt, NarrowAt, Crc;
    HeaderLaidOut(p);
    CountersLaidOut(p);
    UpgradesLaidOut(p);
    ItemsLaidOut(p);
  }

  lemma BodyRead(data: Bytes, q: Save, numbers: seq<U64>)
    requires |data| == BASE + 68 * |q.inventory| && |numbers| == 5 && numbers == Numbers(q)
    requires data[16..56] == Flatten(Le8, numbers) && data[56..120] == Flatten(Le8, q.skill)
    requires data[120..140] == Flatten(Le4, q.upgrade) && data[140..144] == Le(q.prestige, 4)
    requires data[144] == |q.inventory|
    requires data[145..401] == Flatten(IdBytes, q.equipment) && data[401..] == Flatten(ItemBytes, q.inventory)
    ensures data[16..] == Body(q)
  {
    hide Flatten, Le;
    assert data[144..145] == Count(q);
    assert data[16..] == data[16..56] + data[56..120] + data[120..140] + data[140..144] + data[144..145]
                         + data[145..401] + data[401..];
  }

  lemma OnlyOneSave(data: Bytes, q: Save)
    requires Image(q) == data && !ValidSave(q)
    ensures !Saved(data)
  {
    if Saved(data) {
      var p: Save :| ValidSave(p) && Image(p) == data;
      ImageInjective(p, q);
    }
  }

  // ----- what a save file is for

  lemma ZeroedSaysTheSame(p: Save)
    requires ValidSave(p)
    ensures Texts(Zeroed(p)) == Texts(p) && ValidSave(Zeroed(p))
  {
    var t, z := Texts(p), Texts(Zeroed(p));
    forall i | 0 <= i < 4 ensures t.equipment[i] == z.equipment[i] {
      UpToNulOfPadded(t.equipment[i], seq(ITEM_ID - |t.equipment[i]|, _ => 0));
    }
    forall i | 0 <= i < |p.inventory| ensures t.inventory[i] == z.inventory[i] {
      UpToNulOfPadded(t.inventory[i].id, seq(ITEM_ID - |t.inventory[i].id|, _ => 0));
    }
    assert t.equipment == z.equipment && t.inventory == z.inventory;
  }

  /** The same numbers, the same items in the same places, and IDs that are the same strings. */
  ghost predicate SameSave(p: Save, q: Save) {
    && q == p.(equipment := q.equipment, inventory := q.inventory) && |q.inventory| == |p.inventory|
    && (forall i :: 0 <= i < 4 ==> UpToNul(q.equipment[i]) == UpToNul(p.equipment[i]))
    && (forall i :: 0 <= i < |p.inventory| ==>
      q.inventory[i].quantity == p.inventory[i].quantity && UpToNul(q.inventory[i].id) == UpToNul(p.inventory[i].id))
  }

  lemma ZeroedIsSame(p: Save)
    requires Texts(Zeroed(p)) == Texts(p)
    ensures SameSave(p, Zeroed(p))
  {
    hide UpToNul, ZeroPad;
    var q := Zeroed(p);
    var t, z := Texts(p), Texts(q);
    assert q == p.(equipment := q.equipment, inventory := q.inventory);
    forall i | 0 <= i < 4 ensures UpToNul(q.equipment[i]) == UpToNul(p.equipment[i]) {
      assert z.equipment[i] == t.equipment[i];
    }
    forall i | 0 <= i < |p.inventory|
      ensures q.inventory[i].quantity == p.inventory[i].quantity
      ensures UpToNul(q.inventory[i].id) == UpToNul(p.inventory[i].id)
    {
      assert z.inventory[i] == t.inventory[i];
    }
  }

  /** Saving and loading any valid profile gives it back, IDs compared as strings. */
  method SaveThenLoad(p: Save) returns (r: Option<Save>)
    requires ValidSave(p)
    ensures r == Some(Zeroed(p)) && SameSave(p, r.value)
  {
    var out := new Byte[SAVE_MAX];
    var n := Encode(p, out);
    r := Decode(out[..n]);
    ZeroedSaysTheSame(p);
    ZeroedIsSame(p);
    assert Saved(out[..n]);
    ImageInjective(r.value, Zeroed(p));
  }

  /** A loaded file is what saving it would write exactly when its ID fields are clear after their NULs. */
  lemma ReencodesExactlyWhenZeroed(data: Bytes, q: Save)
    requires ValidSave(q) && Image(q) == data
    ensures Image(Zeroed(q)) == data <==> Zeroed(q) == q
  {
    if Image(Zeroed(q)) == Image(q) {
      ImageInjective(Zeroed(q), q);
    }
  }

  /** And some files that load are not: a stray byte after an empty slot's NUL. */
  lemma StrayByteLoads() returns (q: Save)
    ensures ValidSave(q) && Saved(Image(q)) && Image(Zeroed(q)) != Image(q)
  {
    var stray: Buffer := NO_ID[1 := 7];
    q := Profile(0, 0, 0, 0, 0, seq(8, _ => 0), seq(5, _ => 0), 0, [stray, NO_ID, NO_ID, NO_ID], []);
    var t := Texts(q);
    forall i | 0 <= i < 4 ensures EquipmentOk(t, i) {
      assert q.equipment[i][0] == 0;
    }
    assert Zeroed(q).equipment[0][1] == 0 != q.equipment[0][1];
    ReencodesExactlyWhenZeroed(Image(q), q);
  }

  /** Changing any one byte of a valid file, header included, makes it refused. */
  lemma DamageIsRefused(data: Bytes, damaged: Bytes, i: nat)
    requires Saved(data) && DifferOnce(data, damaged, i)
    ensures !Saved(damaged)
  {
    hide Saved, Crc, Le, Value;
    HeaderOfSaved(data);
    HeaderOfSaved(damaged);
    if Saved(damaged) {
      if data[16..] == damaged[16..] {
        HeaderDecided(data, damaged);
      } else {
        BodyDamage(data, damaged, i);
        Sizes();
        LeInjective(Crc(data[16..]), Crc(damaged[16..]), 4);
      }
    }
  }

  lemma BodyDamage(data: Bytes, damaged: Bytes, i: nat)
    requires |data| >= HEADER && DifferOnce(data, damaged, i) && data[16..] != damaged[16..]
    ensures data[12..16] == damaged[12..16] && Crc(data[16..]) != Crc(damaged[16..])
  {
    hide Crc;
    assert i >= HEADER;
    CrcSeesOneByte(data[16..], damaged[16..], i - 16);
  }

  lemma HeaderDecided(f: Bytes, g: Bytes)
    requires |f| == |g| >= HEADER && f[16..] == g[16..]
    requires f[..4] == g[..4] && f[4..8] == g[4..8] && f[8..12] == g[8..12] && f[12..16] == g[12..16]
    ensures f == g
  {
    assert f == f[..4] + f[4..8] + f[8..12] + f[12..16] + f[16..];
    assert g == g[..4] + g[4..8] + g[8..12] + g[12..16] + g[16..];
  }

  /** Any damage inside four consecutive bytes of the body is refused too. */
  lemma BurstIsRefused(data: Bytes, i: nat, s: Bytes)
    requires Saved(data) && HEADER <= i && i + |s| <= |data| && |s| <= 4 && data[i..i + |s|] != s
    ensures !Saved(data[..i] + s + data[i + |s|..])
  {
    var damaged := data[..i] + s + data[i + |s|..];
    if Saved(damaged) {
      hide Crc, Le, Saved;
      HeaderOfSaved(data);
      HeaderOfSaved(damaged);
      PatchParts(data, i, s);
      CrcSeesBurst(data[16..i], data[i..i + |s|], s, data[i + |s|..]);
      Sizes();
      LeInjective(Crc(data[16..]), Crc(damaged[16..]), 4);
    }
  }

  lemma PatchParts(data: Bytes, i: nat, s: Bytes)
    requires HEADER <= i && i + |s| <= |data|
    ensures data[16..] == data[16..i] + data[i..i + |s|] + data[i + |s|..]
    ensures (data[..i] + s + data[i + |s|..])[16..] == data[16..i] + s + data[i + |s|..]
    ensures (data[..i] + s + data[i + |s|..])[12..16] == data[12..16]
  {}

  /** A file cut short or with bytes after it is refused. */
  lemma ResizedIsRefused(data: Bytes, resized: Bytes)
    requires Saved(data) && |resized| != |data|
    requires resized < data || data < resized
    ensures !Saved(resized)
  {
    hide Saved, Crc, Le, Value;
    if Saved(resized) {
      HeaderOfSaved(data);
      HeaderOfSaved(resized);
      assert data[8..12] == resized[8..12];
      Sizes();
      LeInjective(|data|, |resized|, 4);
    }
  }
}
