/** Bookkeeping of consumables as values: finding an item in the inventory,
    the rule that decides which active potions expire on a turn, and the stat
    bonus active potions carry and expiry takes back. */
module Potions {
  import opened Items

  /** Index of the first entry of type `t`, or |s| when there is none. */
  function FirstIndex(s: seq<Consumable>, t: ItemType): (i: nat)
    ensures i <= |s|
    ensures i < |s| ==> s[i].consumableType == t
    ensures forall j :: 0 <= j < i ==> s[j].consumableType != t
  {
    if s == [] then 0
    else if s[0].consumableType == t then 0
    else 1 + FirstIndex(s[1..], t)
  }

  /** An active entry survives expiry on turn `now`: it is instantaneous, was
      never started, or its last turn is not `now`. */
  predicate Persists(c: Consumable, now: int) {
    c.duration == 0 || c.startTime == -1 || now - c.startTime != c.duration - 1
  }

  /** The active entries that survive expiry on turn `now`, in their order. */
  function Kept(ps: seq<Consumable>, now: int): (r: seq<Consumable>)
    ensures |r| <= |ps|
  {
    if ps == [] then []
    else
      var init, last := ps[..|ps| - 1], ps[|ps| - 1];
      assert ps == init + [last];
      Kept(init, now) + (if Persists(last, now) then [last] else [])
  }

  /** The entries whose type is not `item`, in their order. */
  function WithoutType(ps: seq<Consumable>, item: ItemType): (r: seq<Consumable>)
    ensures |r| <= |ps|
  {
    if ps == [] then []
    else
      var init, last := ps[..|ps| - 1], ps[|ps| - 1];
      assert ps == init + [last];
      WithoutType(init, item) + (if last.consumableType != item then [last] else [])
  }

  /** The survivors are exactly the entries that persist. */
  lemma {:induction false} KeptMembers(ps: seq<Consumable>, now: int)
    ensures forall c :: c in Kept(ps, now) <==> c in ps && Persists(c, now)
    decreases |ps|
  {
    if ps != [] {
      var init, last := ps[..|ps| - 1], ps[|ps| - 1];
      assert ps == init + [last];
      KeptMembers(init, now);
    }
  }

  /** The entries left are exactly those of another type. */
  lemma {:induction false} WithoutTypeMembers(ps: seq<Consumable>, item: ItemType)
    ensures forall c :: c in WithoutType(ps, item) <==> c in ps && c.consumableType != item
    decreases |ps|
  {
    if ps != [] {
      var init, last := ps[..|ps| - 1], ps[|ps| - 1];
      assert ps == init + [last];
      WithoutTypeMembers(init, item);
    }
  }

  /** What an entry adds to the stat that `potion` raises (0 for any other type). */
  function StatBonus(c: Consumable, potion: ItemType): int {
    if c.consumableType != potion then 0
    else if potion == StrengthPotion then c.strengthEffect
    else if potion == AgilityPotion then c.agilityEffect
    else if potion == IntellectPotion then c.intelEffect
    else 0
  }

  /** Total bonus the active entries of type `potion` carry. */
  function Bonus(ps: seq<Consumable>, potion: ItemType): int {
    if ps == [] then 0
    else Bonus(ps[..|ps| - 1], potion) + StatBonus(ps[|ps| - 1], potion)
  }

  /** Total bonus that expiry on turn `now` takes back for `potion`. */
  function Reversal(ps: seq<Consumable>, now: int, potion: ItemType): int {
    if ps == [] then 0
    else
      var last := ps[|ps| - 1];
      Reversal(ps[..|ps| - 1], now, potion) + (if Persists(last, now) then 0 else StatBonus(last, potion))
  }

  /** Total bonus taken back when expiry runs on turns from, from + 1, ..., from + rounds - 1. */
  function ReversalOver(ps: seq<Consumable>, from: int, rounds: nat, potion: ItemType): int
    decreases rounds
  {
    if rounds == 0 then 0
    else Reversal(ps, from, potion) + ReversalOver(Kept(ps, from), from + 1, rounds - 1, potion)
  }

  /** Extending a prefix by one entry extends the survivors, and each
      stat's takeback, by that entry's share. */
  lemma PrefixStep(ps: seq<Consumable>, i: int, now: int)
    requires 0 <= i < |ps|
    ensures Kept(ps[..i + 1], now) == Kept(ps[..i], now) + (if Persists(ps[i], now) then [ps[i]] else [])
    ensures Reversal(ps[..i + 1], now, StrengthPotion) ==
            Reversal(ps[..i], now, StrengthPotion) + (if Persists(ps[i], now) then 0 else StatBonus(ps[i], StrengthPotion))
    ensures Reversal(ps[..i + 1], now, AgilityPotion) ==
            Reversal(ps[..i], now, AgilityPotion) + (if Persists(ps[i], now) then 0 else StatBonus(ps[i], AgilityPotion))
    ensures Reversal(ps[..i + 1], now, IntellectPotion) ==
            Reversal(ps[..i], now, IntellectPotion) + (if Persists(ps[i], now) then 0 else StatBonus(ps[i], IntellectPotion))
  {
    assert ps[..i + 1][..i] == ps[..i];
  }

  /** The same one-entry step for dropping a type. */
  lemma PrefixStepWithout(ps: seq<Consumable>, i: int, item: ItemType)
    requires 0 <= i < |ps|
    ensures WithoutType(ps[..i + 1], item) ==
            WithoutType(ps[..i], item) + (if ps[i].consumableType != item then [ps[i]] else [])
  {
    assert ps[..i + 1][..i] == ps[..i];
  }

  /** Expiry acts entry by entry: it distributes over concatenation, so the
      survivors keep their relative order. */
  lemma {:induction false} KeptAppend(a: seq<Consumable>, b: seq<Consumable>, now: int)
    ensures Kept(a + b, now) == Kept(a, now) + Kept(b, now)
    decreases |b|
  {
    if b == [] {
      assert a + b == a;
    } else {
      var init, last := b[..|b| - 1], b[|b| - 1];
      assert a + b == (a + init) + [last];
      assert (a + b)[..|a + b| - 1] == a + init;
      KeptAppend(a, init, now);
    }
  }

  /** Running expiry twice on the same turn changes nothing the second time. */
  lemma {:induction false} KeptIdempotent(ps: seq<Consumable>, now: int, potion: ItemType)
    ensures Kept(Kept(ps, now), now) == Kept(ps, now)
    ensures Reversal(Kept(ps, now), now, potion) == 0
    decreases |ps|
  {
    if ps != [] {
      var init, last := ps[..|ps| - 1], ps[|ps| - 1];
      KeptIdempotent(init, now, potion);
      var k := Kept(init, now);
      if Persists(last, now) {
        assert Kept(ps, now) == k + [last];
        assert (k + [last])[..|k + [last]| - 1] == k;
      } else {
        assert Kept(ps, now) == k;
      }
    }
  }

  /** What expiry takes back is exactly the part of the bonus it removes. */
  lemma {:induction false} BonusSplit(ps: seq<Consumable>, now: int, potion: ItemType)
    ensures Bonus(ps, potion) == Bonus(Kept(ps, now), potion) + Reversal(ps, now, potion)
    decreases |ps|
  {
    if ps != [] {
      var init, last := ps[..|ps| - 1], ps[|ps| - 1];
      BonusSplit(init, now, potion);
      var k := Kept(init, now);
      if Persists(last, now) {
        assert Kept(ps, now) == k + [last];
        BonusAppend(k, last, potion);
      } else {
        assert Kept(ps, now) == k;
      }
    }
  }

  /** Activating one more entry adds exactly its own bonus. */
  lemma BonusAppend(ps: seq<Consumable>, c: Consumable, potion: ItemType)
    ensures Bonus(ps + [c], potion) == Bonus(ps, potion) + StatBonus(c, potion)
  {
    assert (ps + [c])[..|ps + [c]| - 1] == ps;
  }

  /** Activating a shop potion (stamping it with the turn it is used on)
      keeps it a shop potion and raises the bonus of its own stat, and only
      that one, by the potion's effect. */
  lemma Activate(ps: seq<Consumable>, item: Consumable, turn: int)
    requires IsShopPotion(item)
    ensures IsShopPotion(item.(startTime := turn))
    ensures Bonus(ps + [item.(startTime := turn)], StrengthPotion) ==
            Bonus(ps, StrengthPotion) + (if item.consumableType == StrengthPotion then StrengthPotionEffect else 0)
    ensures Bonus(ps + [item.(startTime := turn)], AgilityPotion) ==
            Bonus(ps, AgilityPotion) + (if item.consumableType == AgilityPotion then AgilityPotionEffect else 0)
    ensures Bonus(ps + [item.(startTime := turn)], IntellectPotion) ==
            Bonus(ps, IntellectPotion) + (if item.consumableType == IntellectPotion then IntellectPotionEffect else 0)
  {
    var c := item.(startTime := turn);
    BonusAppend(ps, c, StrengthPotion);
    BonusAppend(ps, c, AgilityPotion);
    BonusAppend(ps, c, IntellectPotion);
  }

  /** Every entry is a shop potion. */
  predicate AllShopPotions(ps: seq<Consumable>) {
    forall c :: c in ps ==> IsShopPotion(c)
  }

  /** The part of `stat` not owed to active potions of type `potion` lies in [0, max). */
  predicate BaseInRange(stat: int, ps: seq<Consumable>, potion: ItemType, max: int) {
    0 <= stat - Bonus(ps, potion) < max
  }

  /** Using inventory entry `i` on turn `turn` keeps both lists made of shop
      potions and leaves every stat's base where it was. */
  lemma UseKeepsBase(inv: seq<Consumable>, ps: seq<Consumable>, i: int, turn: int,
                     str: int, agi: int, itl: int)
    requires 0 <= i < |inv| && AllShopPotions(inv) && AllShopPotions(ps)
    requires BaseInRange(str, ps, StrengthPotion, MaxStrength)
    requires BaseInRange(agi, ps, AgilityPotion, MaxAgility)
    requires BaseInRange(itl, ps, IntellectPotion, MaxIntellect)
    ensures var t := inv[i].consumableType; var ps' := ps + [inv[i].(startTime := turn)];
      && AllShopPotions(inv[..i] + inv[i + 1..]) && AllShopPotions(ps')
      && BaseInRange(str + (if t == StrengthPotion then StrengthPotionEffect else 0), ps', StrengthPotion, MaxStrength)
      && BaseInRange(agi + (if t == AgilityPotion then AgilityPotionEffect else 0), ps', AgilityPotion, MaxAgility)
      && BaseInRange(itl + (if t == IntellectPotion then IntellectPotionEffect else 0), ps', IntellectPotion, MaxIntellect)
  {
    assert inv[i] in inv;
    Activate(ps, inv[i], turn);
    var rest := inv[..i] + inv[i + 1..];
    assert forall c :: c in rest ==> c in inv;
  }

  /** Expiry on turn `now` keeps the list made of shop potions, and taking
      back what it reverses leaves every stat's base where it was. */
  lemma ExpiryKeepsBase(ps: seq<Consumable>, now: int, str: int, agi: int, itl: int)
    requires AllShopPotions(ps)
    requires BaseInRange(str, ps, StrengthPotion, MaxStrength)
    requires BaseInRange(agi, ps, AgilityPotion, MaxAgility)
    requires BaseInRange(itl, ps, IntellectPotion, MaxIntellect)
    ensures var k := Kept(ps, now);
      && AllShopPotions(k)
      && BaseInRange(str - Reversal(ps, now, StrengthPotion), k, StrengthPotion, MaxStrength)
      && BaseInRange(agi - Reversal(ps, now, AgilityPotion), k, AgilityPotion, MaxAgility)
      && BaseInRange(itl - Reversal(ps, now, IntellectPotion), k, IntellectPotion, MaxIntellect)
  {
    KeptMembers(ps, now);
    BonusSplit(ps, now, StrengthPotion);
    BonusSplit(ps, now, AgilityPotion);
    BonusSplit(ps, now, IntellectPotion);
  }

  /** Shop potions never carry a negative bonus. */
  lemma {:induction false} BonusNonNegative(ps: seq<Consumable>, potion: ItemType)
    requires forall c :: c in ps ==> IsShopPotion(c)
    ensures Bonus(ps, potion) >= 0
    decreases |ps|
  {
    if ps != [] {
      var init, last := ps[..|ps| - 1], ps[|ps| - 1];
      assert forall c :: c in init ==> c in ps;
      assert last in ps;
      BonusNonNegative(init, potion);
    }
  }

  /** A started potion with a positive duration expires on exactly one turn:
      the one on which startTime + duration - 1 is reached. */
  lemma ExpiresAt(c: Consumable, now: int)
    requires c.duration != 0 && c.startTime != -1
    ensures !Persists(c, now) <==> now == c.startTime + c.duration - 1
  {
  }

  /** Over consecutive turns, a started potion's bonus is taken back exactly
      once if its last turn falls in the window, and never otherwise. */
  lemma {:induction false} ReversedExactlyOnce(c: Consumable, from: int, rounds: nat, potion: ItemType)
    requires c.duration != 0 && c.startTime != -1
    ensures var last := c.startTime + c.duration - 1;
            ReversalOver([c], from, rounds, potion) ==
              if from <= last < from + rounds then StatBonus(c, potion) else 0
    decreases rounds
  {
    var last := c.startTime + c.duration - 1;
    if rounds == 0 {
      assert ReversalOver([c], from, rounds, potion) == 0;
    } else if from != last {
      StillActive(c, from, rounds, potion);
      ReversedExactlyOnce(c, from + 1, rounds - 1, potion);
    } else {
      ExpiredNow(c, from, rounds, potion);
    }
  }

  /** A started entry whose last turn is not `from` contributes nothing on that turn. */
  lemma StillActive(c: Consumable, from: int, rounds: nat, potion: ItemType)
    requires rounds > 0 && c.duration != 0 && c.startTime != -1 && from != c.startTime + c.duration - 1
    ensures ReversalOver([c], from, rounds, potion) == ReversalOver([c], from + 1, rounds - 1, potion)
  {
    SingleEntry(c, from, potion);
  }

  /** A started entry whose last turn is `from` is taken back then, and never again. */
  lemma ExpiredNow(c: Consumable, from: int, rounds: nat, potion: ItemType)
    requires rounds > 0 && c.duration != 0 && c.startTime != -1 && from == c.startTime + c.duration - 1
    ensures ReversalOver([c], from, rounds, potion) == StatBonus(c, potion)
  {
    SingleEntry(c, from, potion);
    NothingActiveNothingReversed(from + 1, rounds - 1, potion);
  }

  /** Expiry of a one-entry list. */
  lemma SingleEntry(c: Consumable, now: int, potion: ItemType)
    ensures Kept([c], now) == if Persists(c, now) then [c] else []
    ensures Reversal([c], now, potion) == if Persists(c, now) then 0 else StatBonus(c, potion)
  {
    assert [c][..0] == [];
  }

  /** What one expiry takes back distributes over concatenation. */
  lemma {:induction false} ReversalAppend(a: seq<Consumable>, b: seq<Consumable>, now: int, potion: ItemType)
    ensures Reversal(a + b, now, potion) == Reversal(a, now, potion) + Reversal(b, now, potion)
    decreases |b|
  {
    if b == [] {
      assert a + b == a;
    } else {
      var init := b[..|b| - 1];
      assert (a + b)[..|a + b| - 1] == a + init;
      ReversalAppend(a, init, now, potion);
    }
  }

  /** What expiry takes back over a window of turns distributes over
      concatenation: each part of the active list is reversed independently. */
  lemma {:induction false} ReversalOverAppend(a: seq<Consumable>, b: seq<Consumable>, from: int, rounds: nat, potion: ItemType)
    ensures ReversalOver(a + b, from, rounds, potion) ==
            ReversalOver(a, from, rounds, potion) + ReversalOver(b, from, rounds, potion)
    decreases rounds
  {
    if rounds > 0 {
      ReversalAppend(a, b, from, potion);
      KeptAppend(a, b, from);
      ReversalOverAppend(Kept(a, from), Kept(b, from), from + 1, rounds - 1, potion);
    }
  }

  /** A started potion anywhere in the active list, among any other entries,
      has its bonus taken back exactly once over a window of turns that
      contains its last turn, and never over one that does not; the rest of
      the list contributes what it would contribute on its own. */
  lemma ActiveReversedExactlyOnce(a: seq<Consumable>, c: Consumable, b: seq<Consumable>,
                                  from: int, rounds: nat, potion: ItemType)
    requires c.duration != 0 && c.startTime != -1
    ensures var last := c.startTime + c.duration - 1;
            ReversalOver(a + [c] + b, from, rounds, potion) ==
              ReversalOver(a, from, rounds, potion)
              + (if from <= last < from + rounds then StatBonus(c, potion) else 0)
              + ReversalOver(b, from, rounds, potion)
  {
    ReversalOverAppend(a + [c], b, from, rounds, potion);
    ReversalOverAppend(a, [c], from, rounds, potion);
    ReversedExactlyOnce(c, from, rounds, potion);
  }

  /** With no active entries, nothing is ever taken back. */
  lemma {:induction false} NothingActiveNothingReversed(from: int, rounds: nat, potion: ItemType)
    ensures ReversalOver([], from, rounds, potion) == 0
    decreases rounds
  {
    if rounds > 0 {
      NothingActiveNothingReversed(from + 1, rounds - 1, potion);
    }
  }

  /** An instantaneous entry (a health potion) is never expired: once active
      it stays at the end of the list on every later turn. */
  lemma HealthPotionsLinger(ps: seq<Consumable>, c: Consumable, now: int)
    requires c.duration == 0
    ensures Kept(ps + [c], now) == Kept(ps, now) + [c]
  {
    assert (ps + [c])[..|ps + [c]| - 1] == ps;
  }
}
