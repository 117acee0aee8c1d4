/** The turn engine: a player's state as a class whose methods are the
    game's actions, the purchase requirement check, and one round of play. */
module Players {
  import opened Items
  import opened Potions

  /** One valid menu selection; the random draw an action needs travels with it. */
  datatype Choice =
    | Attack(draw: int)
    | Buy(itemType: ItemType)
    | Work(draw: int)
    | Use(itemType: ItemType)
    | Train(stat: string)
    | Exit

  /** `g` meets the minimum `min` for the stat named `stat`; an unknown stat name never does. */
  predicate MeetsStat(g: Gopher, stat: string, min: int)
    reads g
  {
    if stat == StrengthStat then g.strength >= min
    else if stat == IntelStat then g.intel >= min
    else if stat == AgilityStat then g.agility >= min
    else false
  }

  /** `g` may buy `itemType`: the item is in the table, every stat minimum
      listed there is met, and `g` can pay the price. */
  predicate Eligible(g: Gopher, itemType: ItemType)
    reads g
  {
    itemType in ItemRequirements &&
    (forall stat :: stat in ItemRequirements[itemType].reqs ==>
       MeetsStat(g, stat, ItemRequirements[itemType].reqs[stat])) &&
    g.gold >= ItemRequirements[itemType].gold
  }

  /** The requirement check, visiting the listed stat minimums in no
      particular order and stopping at the first one that fails. */
  method HasRequirements(g: Gopher, itemType: ItemType) returns (ok: bool)
    ensures ok == Eligible(g, itemType)
  {
    if itemType !in ItemRequirements {
      return false;
    }
    var entry := ItemRequirements[itemType];
    var pending := entry.reqs.Keys;
    while pending != {}
      invariant pending <= entry.reqs.Keys
      invariant forall stat :: stat in entry.reqs && stat !in pending ==> MeetsStat(g, stat, entry.reqs[stat])
      decreases pending
    {
      var stat :| stat in pending;
      var value := entry.reqs[stat];
      if stat == StrengthStat {
        if g.strength < value {
          return false;
        }
      } else if stat == IntelStat {
        if g.intel < value {
          return false;
        }
      } else if stat == AgilityStat {
        if g.agility < value {
          return false;
        }
      } else {
        return false;
      }
      pending := pending - {stat};
    }
    if g.gold < entry.gold {
      return false;
    }
    return true;
  }

  /** The requirement table spelled out item by item. */
  lemma EligibleByTable(g: Gopher, t: ItemType)
    ensures Eligible(g, t) <==>
      || (t == Knife && g.gold >= 10)
      || (t == Sword && g.strength >= 2 && g.gold >= 35)
      || (t == Ninjaku && g.agility >= 2 && g.gold >= 25)
      || (t == Wand && g.intel >= 2 && g.gold >= 30)
      || (t == Gophermourne && g.strength >= 2 && g.intel >= 2 && g.gold >= 65)
      || (t == HealthPotion && g.gold >= 5)
      || (t in {StrengthPotion, AgilityPotion, IntellectPotion} && g.gold >= 10)
  {
    if t == Sword {
      assert ItemRequirements[t].reqs.Keys == {StrengthStat};
    } else if t == Ninjaku {
      assert ItemRequirements[t].reqs.Keys == {AgilityStat};
    } else if t == Wand {
      assert ItemRequirements[t].reqs.Keys == {IntelStat};
      assert Eligible(g, t) ==> MeetsStat(g, IntelStat, 2);
    } else if t == Gophermourne {
      var reqs := ItemRequirements[t].reqs;
      assert reqs.Keys == {StrengthStat, IntelStat};
      assert Eligible(g, t) ==> MeetsStat(g, StrengthStat, 2) && MeetsStat(g, IntelStat, 2);
    }
  }

  /** Menu selection `c` can be carried out by `g`: the random draw it holds
      is one the draw could return. */
  predicate Playable(g: Gopher, c: Choice)
    reads g
  {
    WellFormed(g.weapon) &&
    (c.Attack? ==> ValidDraw(g.weapon, c.draw)) &&
    (c.Work? ==> 0 <= c.draw <= WorkMaxGold - WorkMinGold)
  }

  class Gopher {
    var name: string
    var healthpoints: int
    var gold: int
    var currTurn: int
    var strength: int
    var intel: int
    var agility: int
    var weapon: Weapon
    var inventory: seq<Consumable>
    var currentPortions: seq<Consumable>

    /** Health stays in [0, MaxHealth], gold never goes negative, the weapon
        is usable, every unused and active consumable is a shop potion, and
        each stat without its active potion bonus (what training built)
        stays in [0, max). */
    ghost predicate Valid()
      reads this
    {
      0 <= healthpoints <= MaxHealth && 0 <= gold && WellFormed(weapon) &&
      AllShopPotions(inventory) && AllShopPotions(currentPortions) &&
      BaseInRange(strength, currentPortions, StrengthPotion, MaxStrength) &&
      BaseInRange(intel, currentPortions, IntellectPotion, MaxIntellect) &&
      BaseInRange(agility, currentPortions, AgilityPotion, MaxAgility)
    }

    /** A new player: full health, starting gold, zero attributes, bare hands. */
    constructor (name: string)
      ensures Valid()
      ensures this.name == name && healthpoints == MaxHealth && gold == InitialGoldCoins
      ensures currTurn == 0 && strength == 0 && intel == 0 && agility == 0
      ensures weapon == BareHandsWeapon && inventory == [] && currentPortions == []
    {
      this.name := name;
      healthpoints := MaxHealth;
      gold := InitialGoldCoins;
      currTurn := InitialAttributes;
      strength := InitialAttributes;
      intel := InitialAttributes;
      agility := InitialAttributes;
      weapon := BareHandsWeapon;
      inventory := [];
      currentPortions := [];
    }

    /** Buys `itemType`: nothing changes unless the requirements hold; then the
        weapon is replaced or one fresh potion is appended, and the table price
        is paid. */
    method Buy(itemType: ItemType)
      requires Valid()
      modifies this`weapon, this`inventory, this`gold
      ensures Valid()
      ensures !old(Eligible(this, itemType)) ==> unchanged(this)
      ensures old(Eligible(this, itemType)) ==>
        && gold == old(gold) - ItemRequirements[itemType].gold
        && (IsShopWeapon(itemType) ==> weapon == ShopWeapon(itemType) && inventory == old(inventory))
        && (IsPotion(itemType) ==>
              weapon == old(weapon) && inventory == old(inventory) + [ShopConsumable(itemType)])
    {
      var ok := HasRequirements(this, itemType);
      if !ok {
        return;
      }
      CatalogueMatchesTable();
      if IsShopWeapon(itemType) {
        weapon := ShopWeapon(itemType);
      } else {
        inventory := inventory + [ShopConsumable(itemType)];
      }
      gold := gold - ItemRequirements[itemType].gold;
    }

    /** Hits `defender` with this player's weapon; `draw` is the random draw,
        used only by a weapon with a damage range. Health is clamped at 0, and
        reaching 0 ends the game. */
    method Attack(defender: Gopher, draw: int) returns (damage: int, gameOver: bool)
      requires Valid() && defender.Valid()
      requires ValidDraw(weapon, draw)
      modifies defender`healthpoints
      ensures Valid() && defender.Valid()
      ensures PossibleDamage(weapon, damage)
      ensures damage == if |weapon.damage| == 1 then weapon.damage[0] else weapon.damage[0] + draw
      ensures defender.healthpoints == if old(defender.healthpoints) < damage then 0
                                       else old(defender.healthpoints) - damage
      ensures 0 <= defender.healthpoints <= old(defender.healthpoints)
      ensures gameOver <==> defender.healthpoints == 0
    {
      if |weapon.damage| == 1 {
        damage := weapon.damage[0];
      } else {
        damage := draw + weapon.damage[0];
      }
      defender.healthpoints := defender.healthpoints - damage;
      if defender.healthpoints < 0 {
        defender.healthpoints := 0;
      }
      gameOver := defender.healthpoints <= 0;
    }

    /** Earns `WorkMinGold + draw` coins, where `draw` is the random draw. */
    method Work(draw: int) returns (coins: int)
      requires Valid()
      requires 0 <= draw <= WorkMaxGold - WorkMinGold
      modifies this`gold
      ensures Valid()
      ensures coins == WorkMinGold + draw && WorkMinGold <= coins <= WorkMaxGold
      ensures gold == old(gold) + coins
    {
      coins := draw + WorkMinGold;
      gold := gold + coins;
    }

    /** Uses the first `itemType` in the inventory: applies its effect, stamps
        it with the current turn and moves it to the active list. Nothing
        changes when the inventory holds no such item. */
    method Use(itemType: ItemType)
      requires Valid()
      modifies this`healthpoints, this`strength, this`agility, this`intel
      modifies this`inventory, this`currentPortions
      ensures Valid()
      ensures FirstIndex(old(inventory), itemType) == |old(inventory)| ==> unchanged(this)
      ensures var i := FirstIndex(old(inventory), itemType);
        i < |old(inventory)| ==> UsedAt(i, itemType)
    {
      var i := 0;
      while i < |inventory| && inventory[i].consumableType != itemType
        invariant 0 <= i <= |inventory|
        invariant forall j :: 0 <= j < i ==> inventory[j].consumableType != itemType
      {
        i := i + 1;
      }
      if i == |inventory| {
        return;
      }
      assert i == FirstIndex(inventory, itemType);
      Consume(i);
    }

    /** The state after using inventory entry `i` of type `itemType`: the
        entry leaves the inventory (the others keep their order), joins the
        end of the active list stamped with the current turn, and its effect
        is applied: health up by HealthPotionHP capped at MaxHealth (no
        change at MaxHealth), or the potion's stat up by 2. */
    twostate predicate UsedAt(i: nat, itemType: ItemType)
      reads this
    {
      && i < |old(inventory)|
      && inventory == old(inventory[..i] + inventory[i + 1..])
      && currentPortions == old(currentPortions + [inventory[i].(startTime := currTurn)])
      && healthpoints == (if itemType == HealthPotion && old(healthpoints) != MaxHealth
                          then (if old(healthpoints) + HealthPotionHP > MaxHealth then MaxHealth
                                else old(healthpoints) + HealthPotionHP)
                          else old(healthpoints))
      && strength == old(strength) + (if itemType == StrengthPotion then StrengthPotionEffect else 0)
      && agility == old(agility) + (if itemType == AgilityPotion then AgilityPotionEffect else 0)
      && intel == old(intel) + (if itemType == IntellectPotion then IntellectPotionEffect else 0)
    }

    /** The body of the search loop once it finds entry `i`. */
    method Consume(i: nat)
      requires Valid() && i < |inventory|
      modifies this`healthpoints, this`strength, this`agility, this`intel
      modifies this`inventory, this`currentPortions
      ensures Valid()
      ensures UsedAt(i, old(inventory[i].consumableType))
    {
      var item := inventory[i];
      var itemType := item.consumableType;
      var hp, str, agi, itl := healthpoints, strength, agility, intel;
      if itemType == HealthPotion {
        if hp != MaxHealth {
          hp := hp + HealthPotionHP;
          if hp > MaxHealth {
            hp := MaxHealth;
          }
        }
      } else if itemType == StrengthPotion {
        str := str + StrengthPotionEffect;
      } else if itemType == AgilityPotion {
        agi := agi + AgilityPotionEffect;
      } else if itemType == IntellectPotion {
        itl := itl + IntellectPotionEffect;
      }
      var temp := item.(startTime := currTurn);
      var active := currentPortions + [temp];
      var rest := inventory[..i] + inventory[i + 1..];
      UseKeepsBase(inventory, currentPortions, i, currTurn, strength, agility, intel);
      healthpoints, strength, agility, intel := hp, str, agi, itl;
      currentPortions, inventory := active, rest;
    }

    /** Drops every active entry of type `item`. */
    method RemovePortionFromInventory(item: ItemType)
      modifies this`currentPortions
      ensures currentPortions == WithoutType(old(currentPortions), item)
    {
      var temp: seq<Consumable> := [];
      var i := 0;
      while i < |currentPortions|
        invariant 0 <= i <= |currentPortions|
        invariant currentPortions == old(currentPortions)
        invariant temp == WithoutType(currentPortions[..i], item)
      {
        var ele := currentPortions[i];
        PrefixStepWithout(currentPortions, i, item);
        i := i + 1;
        if ele.consumableType == item {
          continue;
        }
        temp := temp + [ele];
      }
      assert currentPortions[..i] == currentPortions;
      currentPortions := temp;
    }

    /** Expiry at the start of this player's turn: keeps the entries that
        persist on the current turn, in order, and takes back the stat bonus
        of each stat potion that expires. The list visited is the one present
        on entry, and the final assignment overwrites whatever the per-item
        removals left in the field. */
    method RemoveExpiredConsumables()
      requires Valid()
      modifies this`strength, this`agility, this`intel, this`currentPortions
      ensures Valid()
      ensures currentPortions == Kept(old(currentPortions), currTurn)
      ensures strength == old(strength) - Reversal(old(currentPortions), currTurn, StrengthPotion)
      ensures agility == old(agility) - Reversal(old(currentPortions), currTurn, AgilityPotion)
      ensures intel == old(intel) - Reversal(old(currentPortions), currTurn, IntellectPotion)
    {
      var currentTime := currTurn;
      var portions := currentPortions;
      ghost var str0, agi0, int0 := strength, agility, intel;
      var updatedInventory: seq<Consumable> := [];
      var i := 0;
      while i < |portions|
        invariant 0 <= i <= |portions|
        invariant currTurn == currentTime
        invariant updatedInventory == Kept(portions[..i], currentTime)
        invariant strength == str0 - Reversal(portions[..i], currentTime, StrengthPotion)
        invariant agility == agi0 - Reversal(portions[..i], currentTime, AgilityPotion)
        invariant intel == int0 - Reversal(portions[..i], currentTime, IntellectPotion)
      {
        var item := portions[i];
        PrefixStep(portions, i, currentTime);
        if Persists(item, currentTime) {
          updatedInventory := updatedInventory + [item];
        } else if item.consumableType == StrengthPotion {
          strength := strength - item.strengthEffect;
          RemovePortionFromInventory(StrengthPotion);
        } else if item.consumableType == AgilityPotion {
          agility := agility - item.agilityEffect;
          RemovePortionFromInventory(AgilityPotion);
        } else if item.consumableType == IntellectPotion {
          intel := intel - item.intelEffect;
          RemovePortionFromInventory(IntellectPotion);
        }
        i := i + 1;
      }
      assert portions[..i] == portions;
      currentPortions := updatedInventory;
      ExpiryKeepsBase(portions, currentTime, str0, agi0, int0);
    }

    /** Trains `stat` for TrainCost gold: refused without enough gold, for an
        unknown stat, or when the stat would reach its maximum. */
    method Train(stat: string) returns (trained: bool)
      requires Valid()
      modifies this`gold, this`strength, this`intel, this`agility
      ensures Valid()
      ensures trained <==>
        old(gold) >= TrainCost &&
        (|| (stat == StrengthStat && old(strength) + StrengthPotionEffect < MaxStrength)
         || (stat == IntelStat && old(intel) + IntellectPotionEffect < MaxIntellect)
         || (stat == AgilityStat && old(agility) + AgilityPotionEffect < MaxAgility))
      ensures !trained ==> unchanged(this)
      ensures trained ==>
        && gold == old(gold) - TrainCost
        && strength == old(strength) + (if stat == StrengthStat then StrengthPotionEffect else 0)
        && intel == old(intel) + (if stat == IntelStat then IntellectPotionEffect else 0)
        && agility == old(agility) + (if stat == AgilityStat then AgilityPotionEffect else 0)
      ensures trained && stat == StrengthStat ==> strength < MaxStrength
      ensures trained && stat == IntelStat ==> intel < MaxIntellect
      ensures trained && stat == AgilityStat ==> agility < MaxAgility
    {
      trained := false;
      if gold < TrainCost {
        return;
      }
      BonusNonNegative(currentPortions, StrengthPotion);
      BonusNonNegative(currentPortions, IntellectPotion);
      BonusNonNegative(currentPortions, AgilityPotion);
      if stat == StrengthStat {
        if strength + StrengthPotionEffect < MaxStrength {
          strength := strength + StrengthPotionEffect;
          gold := gold - TrainCost;
          trained := true;
        }
      } else if stat == IntelStat {
        if intel + IntellectPotionEffect < MaxIntellect {
          intel := intel + IntellectPotionEffect;
          gold := gold - TrainCost;
          trained := true;
        }
      } else if stat == AgilityStat {
        if agility + AgilityPotionEffect < MaxAgility {
          agility := agility + AgilityPotionEffect;
          gold := gold - TrainCost;
          trained := true;
        }
      }
    }

    /** This player's turn: expire stale effects, then carry out `choice`.
        The result says whether the game ends (opponent dead, or Exit). */
    method Game(opponent: Gopher, choice: Choice) returns (over: bool)
      requires Valid() && opponent.Valid() && opponent != this
      requires Playable(this, choice)
      modifies this, opponent`healthpoints
      ensures Valid() && opponent.Valid()
      ensures name == old(name) && currTurn == old(currTurn)
      ensures over <==> choice.Exit? || (choice.Attack? && opponent.healthpoints == 0)
      ensures !choice.Attack? ==> opponent.healthpoints == old(opponent.healthpoints)
      ensures choice.Attack? ==> 0 <= opponent.healthpoints <= old(opponent.healthpoints)
      ensures !choice.Use? ==> currentPortions == Kept(old(currentPortions), currTurn)
    {
      RemoveExpiredConsumables();
      over := Act(opponent, choice);
    }

    /** Carries out menu selection `choice`. */
    method Act(opponent: Gopher, choice: Choice) returns (over: bool)
      requires Valid() && opponent.Valid() && opponent != this
      requires Playable(this, choice)
      modifies this`healthpoints, this`gold, this`strength, this`intel, this`agility
      modifies this`weapon, this`inventory, this`currentPortions, opponent`healthpoints
      ensures Valid() && opponent.Valid()
      ensures over <==> choice.Exit? || (choice.Attack? && opponent.healthpoints == 0)
      ensures !choice.Attack? ==> opponent.healthpoints == old(opponent.healthpoints)
      ensures choice.Attack? ==> 0 <= opponent.healthpoints <= old(opponent.healthpoints)
      ensures !choice.Use? ==> currentPortions == old(currentPortions)
    {
      over := false;
      match choice
      case Attack(draw) =>
        var _, dead := this.Attack(opponent, draw);
        over := dead;
      case Buy(itemType) =>
        this.Buy(itemType);
      case Work(draw) =>
        var _ := this.Work(draw);
      case Use(itemType) =>
        this.Use(itemType);
      case Train(stat) =>
        var _ := this.Train(stat);
      case Exit =>
        over := true;
    }
  }

  /** One pass of the main loop: the first player takes a turn, then the
      second, then both turn counters advance. The game stops as soon as a
      turn ends it. */
  method Round(g1: Gopher, g2: Gopher, c1: Choice, c2: Choice) returns (over: bool)
    requires g1 != g2 && g1.Valid() && g2.Valid()
    requires Playable(g1, c1) && Playable(g2, c2)
    modifies g1, g2
    ensures g1.Valid() && g2.Valid()
    ensures over ==> c1.Exit? || c1.Attack? || c2.Exit? || c2.Attack?
    ensures !over ==> g1.currTurn == old(g1.currTurn) + 1 && g2.currTurn == old(g2.currTurn) + 1
  {
    over := g1.Game(g2, c1);
    if over {
      return;
    }
    over := g2.Game(g1, c2);
    if over {
      return;
    }
    g1.currTurn := g1.currTurn + 1;
    g2.currTurn := g2.currTurn + 1;
  }

  /** A new player (20 gold, strength 0) cannot buy a Sword. */
  method SwordScenario() {
    var g := new Gopher("Gopher1");
    g.Buy(Sword);
    assert g.gold == 20 && g.weapon == BareHandsWeapon;
  }

  /** A Strength Potion used on turn 0 raises strength by 2 until the
      expiry that runs on turn 2 takes the bonus back. */
  method StrengthPotionScenario() {
    var g := new Gopher("Gopher1");
    g.Buy(StrengthPotion);
    assert g.inventory == [ShopConsumable(StrengthPotion)] && g.gold == 10;
    g.Use(StrengthPotion);
    assert g.strength == 2 && g.inventory == [];
    g.currTurn := 1;
    g.RemoveExpiredConsumables();
    assert g.strength == 2;
    g.currTurn := 2;
    g.RemoveExpiredConsumables();
    assert g.strength == 0 && g.currentPortions == [];
  }

  /** A Sword ([3, 5]) hitting a defender at 4 health leaves max(0, 4 - d). */
  method SwordAttackScenario(draw: int)
    requires 0 <= draw <= 2
  {
    var attacker := new Gopher("Gopher1");
    var defender := new Gopher("Gopher2");
    attacker.weapon := ShopWeapon(Sword);
    defender.healthpoints := 4;
    var damage, over := attacker.Attack(defender, draw);
    assert damage == 3 + draw;
    assert defender.healthpoints == (if damage == 3 then 1 else 0);
    assert over == (damage != 3);
  }
}
