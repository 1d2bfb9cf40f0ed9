/** Shop requests during a survival game: serials that are never executed twice, prices that saturate, and changes
    that are on disk or not made at all. */
module Shop {
  import opened Bits
  import opened Options
  import opened Progression
  import opened Roots

  const SHOP_ITEMS := 32
  const UNITS := 16
  const WORD_MAX := 0xFFFF_FFFF
  const U64_MAX := 0xFFFF_FFFF_FFFF_FFFF

  datatype ItemKind = Upgrade | Weapon | Armor | Spell | Health | Mana
  datatype ShopItem = ShopItem(id: Text, asset: Text, price: Word, kind: ItemKind, upgrade: nat, power: real)
  datatype Action = Buy | Equip | Use | Prestige | Other
  datatype Result = Nothing | Done | Unavailable | NoGold | AlreadyOwned | NotSaved

  /** What a request reads and never changes. */
  datatype World = World(authority: bool, active: bool, resting: bool, items: seq<ShopItem>, weapons: set<Text>,
                         maxMana: Profile<Text> -> real)

  /** One player: what is in memory, and the profile as the store last kept it. */
  datatype Unit = Unit(bound: bool, dirty: bool, alive: bool, near: bool, slot: nat, seen: nat, result: Result,
                       profile: Profile<Text>, stored: Profile<Text>, health: real, maxHealth: real, mana: real)

  // ----- serials

  /** A forward half-range counter: 1 to 32767 ahead, and never 0. */
  predicate Fresh(seen: nat, serial: nat)
    requires seen < 0x1_0000 && serial < 0x1_0000
  {
    serial != 0 && serial != seen && (serial - seen) % 0x1_0000 < 32768
  }

  /** Where the counter is, unbounded, after a serial: its low 16 bits are what was seen. */
  function Moved(position: nat, serial: nat): nat
    requires serial < 0x1_0000
  {
    if Fresh(position % 0x1_0000, serial) then position + (serial - position % 0x1_0000) % 0x1_0000 else position
  }

  lemma MovedSeen(position: nat, serial: nat)
    requires serial < 0x1_0000
    ensures Fresh(position % 0x1_0000, serial) ==>
      Moved(position, serial) % 0x1_0000 == serial && Moved(position, serial) > position
    ensures !Fresh(position % 0x1_0000, serial) ==> Moved(position, serial) == position
  {
    var seen := position % 0x1_0000;
    var ahead := (serial - seen) % 0x1_0000;
    assert ahead == if serial >= seen then serial - seen else serial - seen + 0x1_0000;
    LowWord(position, ahead);
  }

  lemma LowWord(position: nat, ahead: nat)
    requires ahead < 0x1_0000
    ensures (position + ahead) % 0x1_0000 ==
      if position % 0x1_0000 + ahead < 0x1_0000 then position % 0x1_0000 + ahead
        else position % 0x1_0000 + ahead - 0x1_0000
  {}

  /** A request sent at position q is executed exactly when q is ahead by less than half the range, modulo the wrap. */
  lemma FreshByPosition(position: nat, q: nat)
    ensures Fresh(position % 0x1_0000, q % 0x1_0000) <==> q % 0x1_0000 != 0 && 0 < (q - position) % 0x1_0000 < 32768
  {
    Difference(q, position);
  }

  lemma Difference(q: nat, p: nat)
    ensures (q - p) % 0x1_0000 == (q % 0x1_0000 - p % 0x1_0000) % 0x1_0000
    ensures (q - p) % 0x1_0000 == 0 <==> q % 0x1_0000 == p % 0x1_0000
  {
    var a, b := q / 0x1_0000, p / 0x1_0000;
    assert q - p == (a - b) * 0x1_0000 + (q % 0x1_0000 - p % 0x1_0000);
    Shifted(a - b, q % 0x1_0000 - p % 0x1_0000);
  }

  lemma Shifted(k: int, x: int)
    ensures (k * 0x1_0000 + x) % 0x1_0000 == x % 0x1_0000
  {}

  /** Up to 32768 positions behind, never again; one further, the wrap makes an old request look new. */
  lemma StaleNeverRuns(position: nat, q: nat)
    requires q <= position
    ensures position - q <= 32768 ==> !Fresh(position % 0x1_0000, q % 0x1_0000)
    ensures 32768 < position - q < 0x1_0000 && q % 0x1_0000 != 0 ==> Fresh(position % 0x1_0000, q % 0x1_0000)
  {
    FreshByPosition(position, q);
    var lag := position - q;
    if lag < 0x1_0000 {
      assert (q - position) % 0x1_0000 == if lag == 0 then 0 else 0x1_0000 - lag;
    }
  }

  /** Within half the range either way the counter is the highest position executed, and a position is executed
      exactly when it is higher (and not a multiple of the range, whose serial would be 0). */
  lemma TracksSender(position: nat, q: nat)
    requires position <= q + 32768 && q < position + 32768
    ensures Fresh(position % 0x1_0000, q % 0x1_0000) <==> q > position && q % 0x1_0000 != 0
    ensures Moved(position, q % 0x1_0000) == if q > position && q % 0x1_0000 != 0 then q else position
  {
    FreshByPosition(position, q);
    Difference(q, position);
    if q > position {
      assert (q - position) % 0x1_0000 == q - position;
    } else {
      StaleNeverRuns(position, q);
    }
  }

  /** The counter after requests sent at these positions arrive, in whatever order and however often. */
  function Arrive(position: nat, sent: seq<nat>): nat {
    if sent == [] then position else Moved(Arrive(position, sent[..|sent| - 1]), sent[|sent| - 1] % 0x1_0000)
  }

  ghost predicate InWindow(position: nat, sent: seq<nat>) {
    forall k :: 0 <= k < |sent| ==> var at := Arrive(position, sent[..k]); at <= sent[k] + 32768 && sent[k] < at + 32768
  }

  ghost predicate Executed(position: nat, sent: seq<nat>, k: nat)
    requires k < |sent|
  {
    Fresh(Arrive(position, sent[..k]) % 0x1_0000, sent[k] % 0x1_0000)
  }

  /** Whatever arrives, the counter only grows, and by every request executed. */
  lemma {:induction false} CounterGrows(position: nat, sent: seq<nat>, j: nat, k: nat)
    requires j <= k <= |sent|
    ensures Arrive(position, sent[..j]) <= Arrive(position, sent[..k])
    ensures j < k && Executed(position, sent, j) ==> Arrive(position, sent[..j]) < Arrive(position, sent[..k])
  {
    if j < k {
      CounterGrows(position, sent, j, k - 1);
      assert sent[..k][..k - 1] == sent[..k - 1];
      MovedSeen(Arrive(position, sent[..k - 1]), sent[k - 1] % 0x1_0000);
    }
  }

  /** So no request is executed twice, and those executed are in the order they were sent. */
  lemma {:induction false} ExecutedInOrder(position: nat, sent: seq<nat>, j: nat, k: nat)
    requires InWindow(position, sent) && j < k < |sent| && Executed(position, sent, j) && Executed(position, sent, k)
    ensures sent[j] < sent[k]
  {
    TracksSender(Arrive(position, sent[..j]), sent[j]);
    TracksSender(Arrive(position, sent[..k]), sent[k]);
    assert sent[..j + 1][..j] == sent[..j];
    CounterGrows(position, sent, j + 1, k);
  }

  // ----- prices

  /** Price times the square of the next tier, with the checks that keep it in 64 bits. */
  function Price(item: ShopItem, p: Profile<Text>): U64
    requires Shaped(p) && item.upgrade < UPGRADES
  {
    if item.kind.Upgrade? then TierPrice(p.upgrade[item.upgrade], item.price) else item.price
  }

  function TierPrice(tier: Word, price: Word): U64 {
    var t: nat := tier + 1;
    if t > U64_MAX / t then U64_MAX
    else if price != 0 && t * t > U64_MAX / price then U64_MAX
    else FitsProduct(t * t, price); t * t * price
  }

  lemma FitsProduct(a: nat, b: nat)
    ensures b > 0 ==> (a > U64_MAX / b <==> a * b > U64_MAX)
    ensures b == 0 ==> a * b == 0
  {
    if b > 0 {
      var q := U64_MAX / b;
      assert U64_MAX < (q + 1) * b && q * b <= U64_MAX;
      if a > q { Larger(q + 1, a, b); } else { Larger(a, q, b); }
    }
  }

  lemma Larger(x: nat, y: nat, b: nat)
    requires x <= y
    ensures x * b <= y * b
  {}

  /** Exact, or the most there is when the exact price would not fit; the last tier never has a price. */
  lemma PriceIsProduct(tier: Word, price: Word)
    ensures var t := tier as int + 1;
      TierPrice(tier, price) == if t == 0x1_0000_0000 || t * t * price > U64_MAX then U64_MAX else t * t * price
  {
    var t: nat := tier + 1;
    FitsProduct(t, t);
    FitsProduct(t * t, price);
    SquareFits(t);
  }

  lemma SquareFits(t: nat)
    requires t <= 0x1_0000_0000
    ensures t * t > U64_MAX <==> t == 0x1_0000_0000
  {
    if t < 0x1_0000_0000 {
      Larger(t, 0xFFFF_FFFF, t);
      Larger(t, 0xFFFF_FFFF, 0xFFFF_FFFF);
    }
  }

  /** No tier is cheaper than the one before it. */
  lemma PriceNeverFalls(tier: Word, next: Word, price: Word)
    requires tier <= next
    ensures TierPrice(tier, price) <= TierPrice(next, price)
  {
    hide TierPrice;
    PriceIsProduct(tier, price);
    PriceIsProduct(next, price);
    var a: nat, b: nat := tier + 1, next + 1;
    Larger(a, b, a);
    Larger(a, b, b);
    Larger(a * a, b * b, price);
  }

  // ----- what a request asks for

  ghost predicate WorldOk(w: World) {
    |w.items| <= SHOP_ITEMS && forall i :: 0 <= i < |w.items| ==>
      IdValid(w.items[i].id) && w.items[i].upgrade < UPGRADES
  }

  predicate Consumable(kind: ItemKind) { kind.Health? || kind.Mana? }

  predicate Wearable(kind: ItemKind) { kind.Weapon? || kind.Armor? || kind.Spell? }

  predicate AtShop(w: World, u: Unit) { w.active && u.alive && w.resting && u.near }

  /** Level 50 is a root of at least 49, of thousands of experience. */
  predicate MayPrestige(p: Profile<Text>) { p.experience / 1000 >= 49 * 49 && p.prestige < WORD_MAX }

  function BuyVerdict(w: World, p: Profile<Text>, i: ShopItem): Result
    requires Shaped(p) && i.upgrade < UPGRADES
  {
    if i.kind.Weapon? && i.asset !in w.weapons then Unavailable
    else if i.kind.Upgrade? && p.upgrade[i.upgrade] == WORD_MAX then Unavailable
    else if !i.kind.Upgrade? && !Consumable(i.kind) && Quantity(p, i.id) > 0 then AlreadyOwned
    else if Price(i, p) == U64_MAX || Price(i, p) > p.gold then NoGold
    else if i.kind.Upgrade? || Given(p, i.id, 1).Some? then Done
    else Unavailable
  }

  /** What the rules say of a request, before anything is saved. */
  function Verdict(w: World, u: Unit, action: Action, item: nat): Result
    requires WorldOk(w) && Shaped(u.profile)
  {
    if !u.alive then Unavailable
    else if action.Prestige? then if w.resting && u.near && MayPrestige(u.profile) then Done else Unavailable
    else if item >= |w.items| then Unavailable
    else
      var i := w.items[item];
      match action
      case Buy => if AtShop(w, u) then BuyVerdict(w, u.profile, i) else Unavailable
      case Equip =>
        if Quantity(u.profile, i.id) > 0 && Wearable(i.kind) && (i.kind.Weapon? ==> i.asset in w.weapons)
        then Done else Unavailable
      case Use =>
        if Quantity(u.profile, i.id) > 0 && ((i.kind.Health? && u.health < u.maxHealth) ||
          (i.kind.Mana? && u.mana < w.maxMana(u.profile)))
        then Done else Unavailable
      case _ => Unavailable
  }

  function EquipSlot(u: Unit, kind: ItemKind): nat { if kind.Weapon? then u.slot % 2 else if kind.Armor? then 2 else 3 }

  function Least(a: real, b: real): real { if a < b then a else b }

  /** What memory becomes when the rules allow it. */
  function Tried(w: World, u: Unit, action: Action, item: nat): Unit
    requires WorldOk(w) && Shaped(u.profile) && Verdict(w, u, action, item).Done?
  {
    var p := u.profile;
    if action.Prestige? then u.(profile := p.(prestige := p.prestige + 1, experience := 0))
    else
      var i := w.items[item];
      match action
      case Buy =>
        if i.kind.Upgrade? then u.(profile :=
          p.(gold := p.gold - Price(i, p), upgrade := p.upgrade[i.upgrade := p.upgrade[i.upgrade] + 1]))
        else u.(profile := Given(p, i.id, 1).value.(gold := p.gold - Price(i, p)))
      case Equip => u.(profile := p.(equipment := p.equipment[EquipSlot(u, i.kind) := i.id]))
      case Use =>
        u.(profile := Taken(p, i.id, 1).value,
           health := if i.kind.Health? then Least(u.maxHealth, u.health + i.power * u.maxHealth) else u.health,
           mana := if i.kind.Mana? then Least(w.maxMana(p), u.mana + i.power) else u.mana)
  }

  /** The unit after an executed request: on disk as in memory, or nothing of it. */
  function Answered(w: World, u: Unit, action: Action, item: nat, serial: nat, storeWorks: bool): Unit
    requires WorldOk(w) && Shaped(u.profile)
  {
    var verdict := Verdict(w, u, action, item);
    if !verdict.Done? then u.(seen := serial, result := verdict)
    else
      var tried := Tried(w, u, action, item);
      if Valid(tried.profile) && storeWorks then
        tried.(seen := serial, result := Done, dirty := false, stored := tried.profile)
      else u.(seen := serial, result := NotSaved, dirty := true)
  }

  lemma SerialIrrelevant(w: World, u: Unit, action: Action, item: nat, serial: nat)
    requires WorldOk(w) && Shaped(u.profile)
    ensures Verdict(w, u.(seen := serial), action, item) == Verdict(w, u, action, item)
    ensures Verdict(w, u, action, item).Done? ==>
      Tried(w, u.(seen := serial), action, item) == Tried(w, u, action, item).(seen := serial)
    ensures Verdict(w, u, action, item).Done? ==> SameButEffects(u, Tried(w, u, action, item))
  {
    hide BuyVerdict, Given, Taken, Quantity, MayPrestige, Price;
  }

  /** A request changes the profile and the vitals, nothing else of the unit. */
  predicate SameButEffects(u: Unit, u': Unit) {
    u' == u.(profile := u'.profile, health := u'.health, mana := u'.mana)
  }

  lemma DeadGetNothing(w: World, u: Unit, action: Action, item: nat)
    requires WorldOk(w) && Shaped(u.profile) && !u.alive
    ensures Verdict(w, u, action, item) == Unavailable
  {}

  method CharacterLevel(p: Profile<Text>) returns (level: nat)
    ensures level >= 50 <==> p.experience / 1000 >= 49 * 49
  {
    var r := Root(p.experience / 1000);
    level := r + 1;
    if r >= 49 { Larger(49, r, 49); Larger(49, r, r); } else { Larger(r + 1, 49, 49); Larger(r + 1, 49, r + 1); }
  }

  class Survival {
    const world: World
    var units: seq<Unit>

    ghost predicate Ready()
      reads this
    {
      |units| == UNITS && WorldOk(world) && forall k :: 0 <= k < UNITS ==>
        Shaped(units[k].profile) && units[k].seen < 0x1_0000
    }

    constructor (world: World, units: seq<Unit>)
      ensures this.world == world && this.units == units
    {
      this.world, this.units := world, units;
    }

    /** Saves a unit's profile; the store refuses an invalid one, and may fail. */
    method Save(unit: nat, storeWorks: bool) returns (ok: bool)
      requires unit < |units|
      modifies this`units
      ensures ok <==> !old(units)[unit].bound || (Valid(old(units)[unit].profile) && storeWorks)
      ensures units == if ok && old(units)[unit].bound
        then old(units)[unit := old(units)[unit].(dirty := false, stored := old(units)[unit].profile)]
        else if ok then old(units) else old(units)[unit := old(units)[unit].(result := NotSaved)]
    {
      var u := units[unit];
      if !u.bound {
        return true;
      }
      if !Valid(u.profile) || !storeWorks {
        units := units[unit := u.(result := NotSaved)];
        return false;
      }
      units := units[unit := u.(dirty := false, stored := u.profile)];
      ok := true;
    }

    method Request(unit: int, action: Action, item: nat, serial: nat, storeWorks: bool) returns (r: Result)
      requires Ready() && serial < 0x1_0000
      modifies this`units
      ensures !Accepts(old(units), unit, serial) ==> units == old(units)
      ensures !Accepts(old(units), unit, serial) ==>
        r == if Playing(old(units), unit) then old(units)[unit].result else Unavailable
      ensures Accepts(old(units), unit, serial) ==>
        units == old(units)[unit := Answered(world, old(units)[unit], action, item, serial, storeWorks)] &&
          r == units[unit].result
    {
      hide Verdict, Tried, Valid;
      if !world.authority || !world.active || unit < 0 || unit >= UNITS || !units[unit].bound {
        return Unavailable;
      }
      var seen := units[unit].seen;
      if serial == 0 || serial == seen {
        return units[unit].result;
      }
      if (serial - seen) % 0x1_0000 >= 32768 {
        return units[unit].result;
      }
      units := units[unit := units[unit].(seen := serial)];
      var before := units[unit];
      SerialIrrelevant(world, old(units)[unit], action, item, serial);
      if !before.alive {
        assert Verdict(world, before, action, item) == Unavailable by { DeadGetNothing(world, before, action, item); }
        units := units[unit := before.(result := Unavailable)];
        return Unavailable;
      }
      var tried;
      r, tried := Try(before, action, item);
      units := units[unit := tried];
      if r.Done? {
        units := units[unit := units[unit].(dirty := true)];
        var saved := Save(unit, storeWorks);
        if !saved {
          units := units[unit := units[unit].(profile := before.profile, health := before.health, mana := before.mana)];
          r := NotSaved;
        }
      }
      units := units[unit := units[unit].(result := r)];
    }

    predicate Playing(us: seq<Unit>, unit: int)
      requires |us| == UNITS
    {
      world.authority && world.active && 0 <= unit < UNITS && us[unit].bound
    }

    predicate Accepts(us: seq<Unit>, unit: int, serial: nat)
      requires |us| == UNITS && serial < 0x1_0000 && forall k :: 0 <= k < UNITS ==> us[k].seen < 0x1_0000
    {
      Playing(us, unit) && Fresh(us[unit].seen, serial)
    }

    /** The rules, applied to memory. */
    method Try(u: Unit, action: Action, item: nat) returns (r: Result, after: Unit)
      requires WorldOk(world) && Shaped(u.profile) && u.alive
      ensures r == Verdict(world, u, action, item)
      ensures after == if r.Done? then Tried(world, u, action, item) else u
    {
      hide Price, Given, Taken, Quantity;
      r, after := Unavailable, u;
      var p := u.profile;
      if action.Prestige? {
        var level := CharacterLevel(p);
        if world.resting && u.near && level >= 50 && p.prestige != WORD_MAX {
          return Done, u.(profile := p.(prestige := p.prestige + 1, experience := 0));
        }
        return;
      }
      if item >= |world.items| {
        return;
      }
      var i := world.items[item];
      match action {
        case Buy =>
          if AtShop(world, u) {
            r, p := BuyItem(p, i);
            after := u.(profile := p);
          }
        case Equip =>
          if Quantity(p, i.id) > 0 && !(i.kind.Weapon? && i.asset !in world.weapons) && Wearable(i.kind) {
            return Done, u.(profile := p.(equipment := p.equipment[EquipSlot(u, i.kind) := i.id]));
          }
        case Use =>
          if Quantity(p, i.id) > 0 {
            r, after := UseItem(u, i);
          }
        case _ =>
      }
    }

    method BuyItem(p: Profile<Text>, i: ShopItem) returns (r: Result, after: Profile<Text>)
      requires Shaped(p) && i.upgrade < UPGRADES
      ensures r == BuyVerdict(world, p, i)
      ensures after == if !r.Done? then p
        else if i.kind.Upgrade? then p.(gold := p.gold - Price(i, p),
          upgrade := p.upgrade[i.upgrade := p.upgrade[i.upgrade] + 1])
        else Given(p, i.id, 1).value.(gold := p.gold - Price(i, p))
    {
      hide Price, Given, Quantity;
      r, after := Unavailable, p;
      var price := Price(i, p);
      if i.kind.Weapon? && i.asset !in world.weapons {
        return;
      }
      if i.kind.Upgrade? && p.upgrade[i.upgrade] == WORD_MAX {
        return;
      }
      if !i.kind.Upgrade? && !Consumable(i.kind) && Quantity(p, i.id) > 0 {
        return AlreadyOwned, p;
      }
      if price == U64_MAX || price > p.gold {
        return NoGold, p;
      }
      if !i.kind.Upgrade? {
        var more := Given(p, i.id, 1);
        if more.None? {
          return;
        }
        GivenQuantity(p, i.id, 1, i.id);
        after := more.value;
      }
      after := after.(gold := after.gold - price);
      if i.kind.Upgrade? {
        after := after.(upgrade := after.upgrade[i.upgrade := after.upgrade[i.upgrade] + 1]);
      }
      r := Done;
    }

    method UseItem(u: Unit, i: ShopItem) returns (r: Result, after: Unit)
      requires Shaped(u.profile) && Quantity(u.profile, i.id) > 0
      ensures r.Done? || r.Unavailable?
      ensures r.Done? <==>
        (i.kind.Health? && u.health < u.maxHealth) ||
        (i.kind.Mana? && u.mana < world.maxMana(u.profile))
      ensures after == if !r.Done? then u else u.(profile := Taken(u.profile, i.id, 1).value,
        health := if i.kind.Health? then Least(u.maxHealth, u.health + i.power * u.maxHealth) else u.health,
        mana := if i.kind.Mana? then Least(world.maxMana(u.profile), u.mana + i.power) else u.mana)
    {
      r, after := Unavailable, u;
      if i.kind.Health? && u.health < u.maxHealth {
        after := after.(health := Least(u.maxHealth, u.health + i.power * u.maxHealth));
        r := Done;
      }
      if i.kind.Mana? && u.mana < world.maxMana(u.profile) {
        after := after.(mana := Least(world.maxMana(u.profile), u.mana + i.power));
        r := Done;
      }
      if r.Done? {
        after := after.(profile := Taken(u.profile, i.id, 1).value);
      }
    }
  }

  // ----- what executed requests do

  /** A purchase takes exactly its price, which the gold covers, and adds one of what was bought, no more. */
  lemma BuyDebits(w: World, u: Unit, item: nat)
    requires WorldOk(w) && Shaped(u.profile) && Verdict(w, u, Buy, item).Done?
    ensures var i, p, q := w.items[item], u.profile, Tried(w, u, Buy, item).profile;
      && Price(i, p) <= p.gold && q.gold + Price(i, p) == p.gold
      && w.active && w.resting && u.alive && u.near
      && q == p.(gold := q.gold, upgrade := q.upgrade, inventory := q.inventory)
      && (i.kind.Upgrade? ==>
        q.inventory == p.inventory &&
        q.upgrade == p.upgrade[i.upgrade := p.upgrade[i.upgrade] + 1])
      && (!i.kind.Upgrade? ==> q.upgrade == p.upgrade)
      && (!i.kind.Upgrade? ==> forall id :: Quantity(q, id) == Quantity(p, id) + (if id == i.id then 1 else 0))
      && (!i.kind.Upgrade? && !Consumable(i.kind) ==> Quantity(p, i.id) == 0)
  {
    hide Price;
    var i, p := w.items[item], u.profile;
    if !i.kind.Upgrade? {
      forall id ensures Quantity(Tried(w, u, Buy, item).profile, id) == Quantity(p, id) + if id == i.id then 1 else 0 {
        GivenQuantity(p, i.id, 1, id);
      }
    }
  }

  /** A weapon is worn in the hand that is out, armor in the third slot and a spell in the fourth, if the player has it
      and the game knows the weapon; the other slots stay. */
  lemma EquipWears(w: World, u: Unit, item: nat)
    requires WorldOk(w) && Shaped(u.profile)
    ensures Verdict(w, u, Equip, item).Done? <==>
      u.alive && item < |w.items| && Quantity(u.profile, w.items[item].id) > 0 &&
      (w.items[item].kind in {Armor, Spell} || (w.items[item].kind == Weapon && w.items[item].asset in w.weapons))
    ensures Verdict(w, u, Equip, item).Done? ==>
      var i, q := w.items[item], Tried(w, u, Equip, item);
      && q == u.(profile := u.profile.(equipment := q.profile.equipment))
      && q.profile.equipment == match i.kind
        case Weapon => u.profile.equipment[u.slot % 2 := i.id]
        case Armor => u.profile.equipment[2 := i.id]
        case _ => u.profile.equipment[3 := i.id]
  {
    hide Quantity, BuyVerdict;
  }

  /** A potion is drunk exactly when there is one and something to restore; it restores its power of health, as a share
      of the maximum, or its power of mana, up to the maximum. */
  lemma UseRestores(w: World, u: Unit, item: nat)
    requires WorldOk(w) && Shaped(u.profile)
    ensures Verdict(w, u, Use, item).Done? <==>
      u.alive && item < |w.items| && Quantity(u.profile, w.items[item].id) > 0 &&
      ((w.items[item].kind == Health && u.health < u.maxHealth) ||
       (w.items[item].kind == Mana && u.mana < w.maxMana(u.profile)))
    ensures Verdict(w, u, Use, item).Done? && w.items[item].kind == Health ==>
      var gained := u.health + w.items[item].power * u.maxHealth;
      Tried(w, u, Use, item).mana == u.mana &&
      Tried(w, u, Use, item).health == if gained <= u.maxHealth then gained else u.maxHealth
    ensures Verdict(w, u, Use, item).Done? && w.items[item].kind == Mana ==>
      var gained, most := u.mana + w.items[item].power, w.maxMana(u.profile);
      Tried(w, u, Use, item).health == u.health &&
      Tried(w, u, Use, item).mana == if gained <= most then gained else most
  {
    hide Quantity, BuyVerdict, Taken;
  }

  /** Prestige is for level 50, near a shop at rest: it starts the experience over and keeps everything else. */
  lemma PrestigeResets(w: World, u: Unit, item: nat)
    requires WorldOk(w) && Shaped(u.profile)
    ensures Verdict(w, u, Prestige, item).Done? <==>
      u.alive && w.resting && u.near && u.profile.experience >= 2401000 && u.profile.prestige < 0xFFFF_FFFF
    ensures Verdict(w, u, Prestige, item).Done? ==>
      Tried(w, u, Prestige, item) == u.(profile := u.profile.(prestige := u.profile.prestige + 1, experience := 0))
  {}

  /** What a purchase needs, all of it. */
  lemma BuyDoneExactlyWhen(w: World, u: Unit, item: nat)
    requires WorldOk(w) && Shaped(u.profile)
    ensures Verdict(w, u, Buy, item).Done? <==>
      && w.active && w.resting && u.alive && u.near && item < |w.items|
      && var i, p := w.items[item], u.profile;
        && Price(i, p) <= p.gold && Price(i, p) < 0xFFFF_FFFF_FFFF_FFFF
        && (i.kind == Upgrade ==> p.upgrade[i.upgrade] < 0xFFFF_FFFF)
        && (i.kind == Weapon ==> i.asset in w.weapons)
        && (i.kind in {Weapon, Armor, Spell} ==> Quantity(p, i.id) == 0)
        && (i.kind != Upgrade ==> Given(p, i.id, 1).Some?)
  {
    hide Quantity, Price, Given;
  }

  /** Using takes one, and never lifts health or mana over its maximum when it was not over before. */
  lemma UseTakesOne(w: World, u: Unit, item: nat)
    requires WorldOk(w) && Valid(u.profile) && Verdict(w, u, Use, item).Done?
    ensures var i, p, u' := w.items[item], u.profile, Tried(w, u, Use, item);
      && (forall id :: Quantity(p, id) == Quantity(u'.profile, id) + if id == i.id then 1 else 0)
      && u'.profile == p.(inventory := u'.profile.inventory)
      && (u.health <= u.maxHealth ==> u'.health <= u.maxHealth) && (u.mana <= w.maxMana(p) ==> u'.mana <= w.maxMana(p))
  {
    var i, p := w.items[item], u.profile;
    forall id ensures Quantity(p, id) == Quantity(Tried(w, u, Use, item).profile, id) + if id == i.id then 1 else 0 {
      TakenQuantity(p, i.id, 1, id);
    }
  }

  /** A valid profile stays one, so only the store can refuse it, but for one case: using up the last of a consumable
      that a slot still names. That request is refused and undone. */
  lemma TriedIsValid(w: World, u: Unit, action: Action, item: nat)
    requires WorldOk(w) && Valid(u.profile) && Verdict(w, u, action, item).Done?
    ensures Valid(Tried(w, u, action, item).profile) <==>
      !(action.Use? && Quantity(u.profile, w.items[item].id) == 1 && w.items[item].id in u.profile.equipment)
  {
    hide Price, IdValid;
    var p, q := u.profile, Tried(w, u, action, item).profile;
    match action
    case Buy =>
      var i := w.items[item];
      if !i.kind.Upgrade? {
        GivenValid(p, i.id, 1);
        SameInventory(Given(p, i.id, 1).value, q);
      } else {
        SameInventory(p, q);
      }
    case Equip => EquippedValid(p, EquipSlot(u, w.items[item].kind), w.items[item].id);
    case Use => TakenValid(p, w.items[item].id, 1);
    case Prestige => SameInventory(p, q);
  }

  /** The one case: a save may name its last potion in a slot, and then drinking it is refused, store or no store. */
  lemma LastEquippedPotionRefused() returns (w: World, u: Unit)
    ensures WorldOk(w) && Valid(u.profile) && Verdict(w, u, Use, 0).Done?
    ensures Answered(w, u, Use, 0, 1, true) == u.(seen := 1, result := NotSaved, dirty := true)
  {
    var id: Text := ['a' as int];
    var p := Profile(0, 0, 0, 0, 0, seq(SKILLS, _ => 0), seq(UPGRADES, _ => 0), 0, [id, [], [], []], [Owned(id, 1)]);
    w := World(true, true, true, [ShopItem(id, id, 0, Health, 0, 1.0)], {}, _ => 0.0);
    u := Unit(true, false, true, true, 0, 0, Nothing, p, p, 0.5, 1.0, 0.0);
    assert IdValid(id) && Slot(p.inventory, id) == 0 && Quantity(p, id) == 1;
    assert forall i :: 0 <= i < 4 ==> EquipmentOk(p, i);
    TriedIsValid(w, u, Use, 0);
  }

  lemma SameInventory(p: Profile<Text>, q: Profile<Text>)
    requires Valid(p) && Shaped(q) && q.inventory == p.inventory && q.equipment == p.equipment
    ensures Valid(q)
  {
    hide IdValid;
    forall i | 0 <= i < 4 ensures EquipmentOk(q, i) {
      assert EquipmentOk(p, i);
    }
  }

  lemma EquippedValid(p: Profile<Text>, slot: nat, id: Text)
    requires Valid(p) && slot < 4 && Quantity(p, id) > 0
    ensures Valid(p.(equipment := p.equipment[slot := id]))
  {
    var q := p.(equipment := p.equipment[slot := id]);
    forall i | 0 <= i < 4 ensures EquipmentOk(q, i) {
      assert EquipmentOk(p, i);
    }
  }

  // ----- runs of requests of one player

  datatype Ask = Ask(action: Action, item: nat, serial: nat, storeWorks: bool)

  ghost predicate AsksOk(asks: seq<Ask>) { forall k :: 0 <= k < |asks| ==> asks[k].serial < 0x1_0000 }

  function Asked(w: World, u: Unit, ask: Ask): Unit
    requires WorldOk(w) && Shaped(u.profile) && u.seen < 0x1_0000 && ask.serial < 0x1_0000
  {
    if Fresh(u.seen, ask.serial) then Answered(w, u, ask.action, ask.item, ask.serial, ask.storeWorks) else u
  }

  lemma AskedShaped(w: World, u: Unit, ask: Ask)
    requires WorldOk(w) && Shaped(u.profile) && u.seen < 0x1_0000 && ask.serial < 0x1_0000
    ensures Shaped(Asked(w, u, ask).profile) && Asked(w, u, ask).seen < 0x1_0000
    ensures Asked(w, u, ask).seen == if Fresh(u.seen, ask.serial) then ask.serial else u.seen
  {
    hide Price, Quantity, Verdict, Tried;
    if Verdict(w, u, ask.action, ask.item).Done? {
      SerialIrrelevant(w, u, ask.action, ask.item, ask.serial);
    }
  }

  function AskedAll(w: World, u: Unit, asks: seq<Ask>): (r: Unit)
    requires WorldOk(w) && Shaped(u.profile) && u.seen < 0x1_0000 && AsksOk(asks)
    ensures Shaped(r.profile) && r.seen < 0x1_0000
  {
    if asks == [] then u
    else
      var before := AskedAll(w, u, asks[..|asks| - 1]);
      AskedShaped(w, before, asks[|asks| - 1]);
      Asked(w, before, asks[|asks| - 1])
  }

  /** What a request spends: the price of a purchase that was executed and saved. */
  function Spent(w: World, u: Unit, ask: Ask): nat
    requires WorldOk(w) && Shaped(u.profile) && u.seen < 0x1_0000 && ask.serial < 0x1_0000
  {
    if Fresh(u.seen, ask.serial) && ask.action.Buy? && ask.item < |w.items| && Asked(w, u, ask).result.Done?
    then Price(w.items[ask.item], u.profile) else 0
  }

  function SpentAll(w: World, u: Unit, asks: seq<Ask>): nat
    requires WorldOk(w) && Shaped(u.profile) && u.seen < 0x1_0000 && AsksOk(asks)
  {
    if asks == [] then 0
    else SpentAll(w, u, asks[..|asks| - 1]) + Spent(w, AskedAll(w, u, asks[..|asks| - 1]), asks[|asks| - 1])
  }

  lemma AskSpends(w: World, u: Unit, ask: Ask)
    requires WorldOk(w) && Shaped(u.profile) && u.seen < 0x1_0000 && ask.serial < 0x1_0000
    ensures Asked(w, u, ask).profile.gold + Spent(w, u, ask) == u.profile.gold
  {
    hide Price, Valid, Quantity;
    if Fresh(u.seen, ask.serial) && Verdict(w, u, ask.action, ask.item).Done? {
      var tried := Tried(w, u, ask.action, ask.item);
      if ask.action.Buy? {
        BuyDebits(w, u, ask.item);
      } else {
        OnlyBuyingSpends(w, u, ask.action, ask.item);
      }
    }
  }

  lemma OnlyBuyingSpends(w: World, u: Unit, action: Action, item: nat)
    requires WorldOk(w) && Shaped(u.profile) && Verdict(w, u, action, item).Done? && !action.Buy?
    ensures Tried(w, u, action, item).profile.gold == u.profile.gold
  {
    hide BuyVerdict, Price;
  }

  /** Over any run, with any serials and any store failures: disk and memory agree and are valid whenever they did at
      the start, and every unit of gold is accounted for by a saved purchase. */
  lemma {:induction false} RunIsAccounted(w: World, u: Unit, asks: seq<Ask>)
    requires WorldOk(w) && Valid(u.profile) && u.stored == u.profile && u.seen < 0x1_0000 && AsksOk(asks)
    ensures var r := AskedAll(w, u, asks); r.stored == r.profile && Valid(r.profile)
    ensures AskedAll(w, u, asks).profile.gold + SpentAll(w, u, asks) == u.profile.gold
  {
    hide Valid, Verdict, Tried, Price, Quantity, Spent, Fresh;
    if asks != [] {
      var n := |asks| - 1;
      ValidIsShaped(u.profile);
      RunIsAccounted(w, u, asks[..n]);
      AskSpends(w, AskedAll(w, u, asks[..n]), asks[n]);
    }
  }

  lemma ValidIsShaped(p: Profile<Text>)
    requires Valid(p)
    ensures Shaped(p)
  {}

  /** What a player's last serial says is where the unbounded counter is, so ExecutedInOrder speaks of these runs. */
  lemma {:induction false} SeenIsCounter(w: World, u: Unit, asks: seq<Ask>, position: nat, sent: seq<nat>)
    requires WorldOk(w) && Shaped(u.profile) && u.seen == position % 0x1_0000 && AsksOk(asks)
    requires |sent| == |asks| && forall k :: 0 <= k < |sent| ==> asks[k].serial == sent[k] % 0x1_0000
    ensures AskedAll(w, u, asks).seen == Arrive(position, sent) % 0x1_0000
  {
    hide Answered, Fresh, Moved;
    if asks != [] {
      var n := |asks| - 1;
      SeenIsCounter(w, u, asks[..n], position, sent[..n]);
      AskedShaped(w, AskedAll(w, u, asks[..n]), asks[n]);
      MovedSeen(Arrive(position, sent[..n]), sent[n] % 0x1_0000);
    }
  }
}
