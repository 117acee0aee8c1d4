/** Item catalogue of Archaemania: the game's constants, the weapon and
    consumable records, the static requirement table consulted before every
    purchase, and the records the shop installs when a purchase succeeds. */
module Items {

  /** The item types: the closed set of named constants every item carries. */
  datatype ItemType =
    | BareHands | Knife | Sword | Ninjaku | Wand | Gophermourne
    | HealthPotion | StrengthPotion | AgilityPotion | IntellectPotion

  // Stat names, as the requirement table and training spell them
  const StrengthStat := "strength"
  const IntelStat := "intel"
  const AgilityStat := "agility"

  const MaxHealth := 30
  const WorkMinGold := 5
  const WorkMaxGold := 15
  const MaxStrength := 10
  const MaxIntellect := 10
  const MaxAgility := 10
  const TrainCost := 5
  const InitialGoldCoins := 20
  const InitialAttributes := 0

  const HealthPotionHP := 5
  const StrengthPotionEffect := 2
  const AgilityPotionEffect := 2
  const IntellectPotionEffect := 2

  /** A weapon: `damage` holds either one fixed value or the inclusive pair [lo, hi]. */
  datatype Weapon = Weapon(damage: seq<int>, weaponType: ItemType, gold: int,
                           strengthReq: int, intellReq: int, agilityReq: int)

  /** A consumable; `startTime` is -1 until the item is used. */
  datatype Consumable = Consumable(consumableType: ItemType, duration: int, hpEffect: int,
                                   strengthEffect: int, intelEffect: int, agilityEffect: int,
                                   startTime: int)

  /** An entry of the requirement table: the price and the stat minimums. */
  datatype Requirement = Requirement(gold: int, reqs: map<string, int>)

  const ItemRequirements: map<ItemType, Requirement> := map[
    Knife := Requirement(10, map[]),
    Sword := Requirement(35, map[StrengthStat := 2]),
    Ninjaku := Requirement(25, map[AgilityStat := 2]),
    Wand := Requirement(30, map[IntelStat := 2]),
    Gophermourne := Requirement(65, map[StrengthStat := 2, IntelStat := 2]),
    HealthPotion := Requirement(5, map[]),
    StrengthPotion := Requirement(10, map[]),
    AgilityPotion := Requirement(10, map[]),
    IntellectPotion := Requirement(10, map[])
  ]

  /** The weapons the shop sells. */
  predicate IsShopWeapon(t: ItemType) {
    t.Knife? || t.Sword? || t.Ninjaku? || t.Wand? || t.Gophermourne?
  }

  /** The consumables the shop sells. */
  predicate IsPotion(t: ItemType) {
    t.HealthPotion? || t.StrengthPotion? || t.AgilityPotion? || t.IntellectPotion?
  }

  /** The weapon every player starts with. */
  const BareHandsWeapon := Weapon([1], BareHands, 0, 0, 0, 0)

  /** Damage is one non-negative value, or a range 0 <= lo <= hi (extra entries are ignored). */
  predicate WellFormed(w: Weapon) {
    if |w.damage| == 1 then 0 <= w.damage[0]
    else 2 <= |w.damage| && 0 <= w.damage[0] <= w.damage[1]
  }

  /** `d` is a damage value the weapon can deal. */
  predicate PossibleDamage(w: Weapon, d: int)
    requires WellFormed(w)
  {
    if |w.damage| == 1 then d == w.damage[0] else w.damage[0] <= d <= w.damage[1]
  }

  /** `draw` is a value the random draw for this weapon can return: rand.Intn(hi - lo + 1). */
  predicate ValidDraw(w: Weapon, draw: int)
    requires WellFormed(w)
  {
    |w.damage| == 1 || 0 <= draw <= w.damage[1] - w.damage[0]
  }

  /** The weapon record a successful purchase of `t` installs. */
  function ShopWeapon(t: ItemType): (w: Weapon)
    requires IsShopWeapon(t)
    ensures WellFormed(w) && |w.damage| == 2
    ensures w.weaponType == t && w.gold == ItemRequirements[t].gold
  {
    if t == Knife then Weapon([2, 3], Knife, 10, 0, 0, 0)
    else if t == Sword then Weapon([3, 5], Sword, 35, 2, 0, 0)
    else if t == Ninjaku then Weapon([1, 7], Ninjaku, 25, 0, 0, 2)
    else if t == Wand then Weapon([3, 3], Wand, 30, 0, 2, 0)
    else Weapon([6, 7], Gophermourne, 65, 3, 2, 0)
  }

  /** The unused consumable a successful purchase of `t` appends to the inventory. */
  function ShopConsumable(t: ItemType): (c: Consumable)
    requires IsPotion(t)
    ensures c.consumableType == t && c.startTime == -1
    ensures c.duration == (if t == HealthPotion then 0 else 3)
    ensures c.hpEffect == (if t == HealthPotion then HealthPotionHP else 0)
    ensures c.strengthEffect == (if t == StrengthPotion then StrengthPotionEffect else 0)
    ensures c.agilityEffect == (if t == AgilityPotion then AgilityPotionEffect else 0)
    ensures c.intelEffect == (if t == IntellectPotion then IntellectPotionEffect else 0)
  {
    if t == HealthPotion then Consumable(t, 0, HealthPotionHP, 0, 0, 0, -1)
    else if t == StrengthPotion then Consumable(t, 3, 0, 2, 0, 0, -1)
    else if t == AgilityPotion then Consumable(t, 3, 0, 0, 0, 2, -1)
    else Consumable(t, 3, 0, 0, 2, 0, -1)
  }

  /** `c` is a shop potion, whatever its start time. */
  predicate IsShopPotion(c: Consumable) {
    IsPotion(c.consumableType) && c == ShopConsumable(c.consumableType).(startTime := c.startTime)
  }

  /** Every key of the requirement table is something the shop can install, and
      every weapon the shop installs is priced as its table entry says. */
  lemma CatalogueMatchesTable()
    ensures forall t :: t in ItemRequirements <==> IsShopWeapon(t) || IsPotion(t)
    ensures forall t :: !(IsShopWeapon(t) && IsPotion(t))
    ensures BareHands !in ItemRequirements && WellFormed(BareHandsWeapon)
    ensures forall t :: IsPotion(t) ==> IsShopPotion(ShopConsumable(t))
  {
  }

  /** The Gophermourne entry of the table asks for strength 2, while the
      installed weapon record carries a strength requirement of 3; only the
      table is ever consulted. */
  lemma GophermourneRequirementsDisagree()
    ensures ItemRequirements[Gophermourne].reqs == map[StrengthStat := 2, IntelStat := 2]
    ensures ShopWeapon(Gophermourne).strengthReq == 3
    ensures ShopWeapon(Gophermourne).intellReq == 2
  {
  }
}
