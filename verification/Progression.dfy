/** Character progression as the engine keeps it: the profile record and the inventory operations.
    I is how an item ID is held: a fixed char field in the record, or the text it says. */
module Progression {
  import opened Bits
  import opened Options

  const SKILLS := 8
  const UPGRADES := 5
  const INVENTORY := 64
  const ITEM_ID := 64

  type Text = Bytes

  datatype Owned<+I> = Owned(id: I, quantity: Word)

  datatype Profile<+I> = Profile(
    gold: U64, experience: U64, earnedGold: U64, kills: U64, waves: U64,
    skill: seq<U64>, upgrade: seq<Word>, prestige: Word,
    equipment: seq<I>, inventory: seq<Owned<I>>)

  predicate Shaped<I>(p: Profile<I>) {
    |p.skill| == SKILLS && |p.upgrade| == UPGRADES && |p.equipment| == 4 && |p.inventory| < 256
  }

  predicate IdChar(c: Byte) {
    'a' as int <= c <= 'z' as int || '0' as int <= c <= '9' as int ||
    c == '_' as int || c == ':' as int || c == '/' as int || c == '.' as int
  }

  predicate IdValid(id: Text) {
    0 < |id| < ITEM_ID && forall k :: 0 <= k < |id| ==> IdChar(id[k])
  }

  /** The loop over the field's bytes, to the NUL after the text. */
  method CheckId(id: Text) returns (ok: bool)
    ensures ok <==> IdValid(id)
  {
    if |id| == 0 {
      return false;
    }
    for n := 0 to ITEM_ID
      invariant n <= |id| && forall k :: 0 <= k < n ==> IdChar(id[k])
    {
      if n == |id| {
        return true;
      }
      var c := id[n] as char;
      if !('a' <= c <= 'z' || '0' <= c <= '9' || c == '_' || c == ':' || c == '/' || c == '.') {
        return false;
      }
    }
    ok := false;
  }

  /** The first inventory slot holding the ID, or the inventory's length. */
  function Slot(inventory: seq<Owned<Text>>, id: Text): (i: nat)
    ensures i <= |inventory|
    ensures i < |inventory| ==> inventory[i].id == id
    ensures forall j :: 0 <= j < i ==> inventory[j].id != id
  {
    if inventory == [] || inventory[0].id == id then 0 else 1 + Slot(inventory[1..], id)
  }

  function Quantity(p: Profile<Text>, id: Text): Word {
    var i := Slot(p.inventory, id);
    if !IdValid(id) || |p.inventory| > INVENTORY || i == |p.inventory| then 0 else p.inventory[i].quantity
  }

  /** What a save may hold. */
  predicate Valid(p: Profile<Text>) {
    && Shaped(p)
    && |p.inventory| <= INVENTORY
    && (forall i :: 0 <= i < |p.inventory| ==> IdValid(p.inventory[i].id) && p.inventory[i].quantity > 0)
    && (forall i, j :: 0 <= j < i < |p.inventory| ==> p.inventory[i].id != p.inventory[j].id)
    && (forall i :: 0 <= i < 4 ==> EquipmentOk(p, i))
  }

  /** An equipment slot is empty, or names something owned. */
  predicate EquipmentOk(p: Profile<Text>, i: nat)
    requires i < |p.equipment|
  {
    p.equipment[i] == [] || (IdValid(p.equipment[i]) && Quantity(p, p.equipment[i]) > 0)
  }

  // ----- inventory operations

  /** mm_item_add: the profile with more of the item, or none when it cannot be. */
  function Given(p: Profile<Text>, id: Text, quantity: Word): Option<Profile<Text>> {
    var i := Slot(p.inventory, id);
    if !IdValid(id) || quantity == 0 || |p.inventory| > INVENTORY then None
    else if i == |p.inventory| then
      if |p.inventory| == INVENTORY then None else Some(p.(inventory := p.inventory + [Owned(id, quantity)]))
    else if 0xFFFF_FFFF - p.inventory[i].quantity < quantity then None
    else Some(p.(inventory := p.inventory[i := Owned(id, p.inventory[i].quantity + quantity)]))
  }

  /** mm_item_take: less of the item, its slot closed up when none is left. */
  function Taken(p: Profile<Text>, id: Text, quantity: Word): Option<Profile<Text>> {
    var i := Slot(p.inventory, id);
    if !IdValid(id) || |p.inventory| > INVENTORY || i == |p.inventory| then None
    else if quantity == 0 || p.inventory[i].quantity < quantity then None
    else if p.inventory[i].quantity == quantity then Some(p.(inventory := p.inventory[..i] + p.inventory[i + 1..]))
    else Some(p.(inventory := p.inventory[i := Owned(id, p.inventory[i].quantity - quantity)]))
  }

  predicate Owns(p: Profile<Text>, id: Text) {
    exists i :: 0 <= i < |p.inventory| && p.inventory[i].id == id
  }

  /** An item can be added when its quantity still fits a word, or it is new and there is a slot for it. */
  lemma GivenExactly(p: Profile<Text>, id: Text, quantity: Word)
    ensures Given(p, id, quantity).Some? <==>
      && IdValid(id) && quantity > 0 && |p.inventory| <= 64
      && (if Owns(p, id) then Quantity(p, id) + quantity < 0x1_0000_0000 else |p.inventory| < 64)
  {
    hide IdValid;
  }

  /** As much can be taken as there is. */
  lemma TakenExactly(p: Profile<Text>, id: Text, quantity: Word)
    ensures Taken(p, id, quantity).Some? <==> 0 < quantity <= Quantity(p, id)
  {
    hide IdValid;
  }

  lemma {:induction false} SlotOfAppended(inventory: seq<Owned<Text>>, o: Owned<Text>, id: Text)
    ensures Slot(inventory + [o], id) == if Slot(inventory, id) < |inventory| then Slot(inventory, id)
      else if o.id == id then |inventory| else |inventory| + 1
  {
    if inventory != [] && inventory[0].id != id {
      SlotOfAppended(inventory[1..], o, id);
      assert (inventory + [o])[1..] == inventory[1..] + [o];
    } else if inventory == [] {
      assert ([] + [o])[1..] == [];
    }
  }

  lemma SlotIs(inventory: seq<Owned<Text>>, id: Text, i: nat)
    requires i <= |inventory| && (i < |inventory| ==> inventory[i].id == id) && forall j :: 0 <= j < i ==>
      inventory[j].id != id
    ensures Slot(inventory, id) == i
  {}

  /** Giving changes that item's quantity by so much, and no other's. */
  lemma GivenQuantity(p: Profile<Text>, id: Text, quantity: Word, other: Text)
    requires Given(p, id, quantity).Some?
    ensures var q := Given(p, id, quantity).value;
      && q == p.(inventory := q.inventory)
      && Quantity(q, other) == Quantity(p, other) + if other == id then quantity else 0
  {
    var q := Given(p, id, quantity).value;
    var i := Slot(p.inventory, id);
    if i == |p.inventory| {
      SlotOfAppended(p.inventory, Owned(id, quantity), other);
    } else {
      SlotIs(q.inventory, other, Slot(p.inventory, other));
    }
  }

  /** Taking undoes giving. */
  lemma TakenAfterGiven(p: Profile<Text>, id: Text, quantity: Word)
    requires Given(p, id, quantity).Some? && (Slot(p.inventory, id) < |p.inventory| ==> Quantity(p, id) > 0)
    ensures Taken(Given(p, id, quantity).value, id, quantity) == Some(p)
  {
    var q := Given(p, id, quantity).value;
    var i := Slot(p.inventory, id);
    if i == |p.inventory| {
      SlotOfAppended(p.inventory, Owned(id, quantity), id);
      assert q.inventory[..i] + q.inventory[i + 1..] == p.inventory;
    } else {
      SlotIs(q.inventory, id, i);
      assert q.inventory[i := p.inventory[i]] == p.inventory;
    }
  }

  predicate DistinctIds(inventory: seq<Owned<Text>>) {
    forall i, j :: 0 <= j < i < |inventory| ==> inventory[i].id != inventory[j].id
  }

  /** Without slot i the others keep their order. */
  lemma SlotClosed(inventory: seq<Owned<Text>>, i: nat, other: Text)
    requires i < |inventory| && DistinctIds(inventory)
    ensures var o, rest := Slot(inventory, other), inventory[..i] + inventory[i + 1..];
      Slot(rest, other) == if o == i then |rest| else if o < i then o else o - 1
  {
    var o, rest := Slot(inventory, other), inventory[..i] + inventory[i + 1..];
    forall j | 0 <= j < |rest| ensures rest[j] == inventory[if j < i then j else j + 1] {}
    SlotIs(rest, other, if o == i then |rest| else if o < i then o else o - 1);
  }

  /** Taking changes that item's quantity by so much, and no other's. */
  lemma TakenQuantity(p: Profile<Text>, id: Text, quantity: Word, other: Text)
    requires Taken(p, id, quantity).Some? && DistinctIds(p.inventory)
    ensures var q := Taken(p, id, quantity).value;
      && q == p.(inventory := q.inventory)
      && Quantity(p, other) == Quantity(q, other) + if other == id then quantity else 0
  {
    hide Slot, DistinctIds, IdValid;
    var q := Taken(p, id, quantity).value;
    var i, o := Slot(p.inventory, id), Slot(p.inventory, other);
    SlotSame(p.inventory, id, other);
    if p.inventory[i].quantity == quantity {
      SlotClosed(p.inventory, i, other);
    } else {
      SlotIs(q.inventory, other, o);
    }
  }

  lemma SlotSame(inventory: seq<Owned<Text>>, id: Text, other: Text)
    ensures Slot(inventory, id) == Slot(inventory, other) < |inventory| ==> id == other
  {}

  lemma GivenValid(p: Profile<Text>, id: Text, quantity: Word)
    requires Valid(p) && Given(p, id, quantity).Some?
    ensures Valid(Given(p, id, quantity).value)
  {
    var q := Given(p, id, quantity).value;
    forall i | 0 <= i < 4 ensures EquipmentOk(q, i) {
      assert EquipmentOk(p, i);
      GivenQuantity(p, id, quantity, p.equipment[i]);
    }
  }

  /** Taking leaves a valid profile exactly when it does not take the last of something equipped. */
  lemma TakenValid(p: Profile<Text>, id: Text, quantity: Word)
    requires Valid(p) && Taken(p, id, quantity).Some?
    ensures Valid(Taken(p, id, quantity).value) <==> Quantity(p, id) > quantity || id !in p.equipment
  {
    hide Quantity, IdValid;
    var q := Taken(p, id, quantity).value;
    TakenShape(p, id, quantity);
    forall i | 0 <= i < 4 ensures EquipmentOk(q, i) <==> p.equipment[i] != id || Quantity(p, id) > quantity {
      assert EquipmentOk(p, i);
      TakenQuantity(p, id, quantity, p.equipment[i]);
      NothingIsNoId(p, id, quantity);
    }
  }

  lemma NothingIsNoId(p: Profile<Text>, id: Text, quantity: Word)
    requires Taken(p, id, quantity).Some?
    ensures id != [] && IdValid(id)
  {}

  lemma TakenShape(p: Profile<Text>, id: Text, quantity: Word)
    requires Valid(p) && Taken(p, id, quantity).Some?
    ensures var q := Taken(p, id, quantity).value;
      && Shaped(q) && |q.inventory| <= INVENTORY && DistinctIds(q.inventory)
      && (forall i :: 0 <= i < |q.inventory| ==> IdValid(q.inventory[i].id) && q.inventory[i].quantity > 0)
  {
    hide IdValid, EquipmentOk;
    var q := Taken(p, id, quantity).value;
    var s := Slot(p.inventory, id);
    if p.inventory[s].quantity == quantity {
      forall j | 0 <= j < |q.inventory| ensures q.inventory[j] == p.inventory[if j < s then j else j + 1] {}
    }
  }
}
