# Archaemania turn engine in Dafny

Archaemania is a two-player console combat game. Each player (a *gopher*)
has health, gold, three attributes (strength, intel, agility), one weapon,
an inventory of unused consumables, and a list of active consumables
(`currentPortions`). On a turn, the player first expires their stale
consumable effects. Then they attack, buy an item, work for gold, use a
consumable or train an attribute. After both players have moved, both turn
counters advance. The game ends when a player's health reaches 0 or a
player exits.

The model has three modules:

- `Items` (`items.dfy`) holds:
  - the item types and the game's constants;
  - the `Weapon`, `Consumable` and requirement records;
  - the requirement table (`ItemRequirements`) every purchase consults;
  - the weapon and potion records the shop installs.
- `Potions` (`potions.dfy`) holds the consumable bookkeeping, as values:
  - finding an item in the inventory (`FirstIndex`);
  - the rule that decides which active entries survive a turn (`Persists`, `Kept`);
  - dropping one type (`WithoutType`);
  - the attribute bonus the active stat potions carry (`Bonus`) and what expiry takes back (`Reversal`, `ReversalOver`).
- `Players` (`players.dfy`) holds the player as a class `Gopher`:
  - its fields, and one method per action, each with its frame;
  - the requirement check, written as the source's loop over the table entry;
  - one turn (`Game`) and one pass of the main loop (`Round`).

`Gopher.Valid()` is the invariant every action keeps:
- health is in [0, 30];
- gold is never negative;
- the weapon's damage description is usable;
- every unused or active consumable is one the shop sells;
- each attribute *minus the bonus of its active potions* lies in [0, 10).

The last clause is the cap that training enforces. Potions may lift an
attribute above 10 while they are active; expiry takes that bonus back.

Two consequences of the code are worth stating outright:
- An active stat potion's effect is reversed on turn `start + duration - 1`
  (game.go:266). A Strength Potion used on turn 0 therefore lifts strength
  during turns 0 and 1, and the bonus is taken back at the start of turn 2.
- The cap of 10 is enforced only when training (game.go:295). Active potions
  can lift an attribute above it until they expire.

Three quirks of the code are reproduced:
- The Gophermourne table entry asks for strength 2, but the weapon record
  installed says 3. Only the table is ever consulted.
- Health potions (duration 0) join the active list and are never expired.
- The per-type removal that expiry calls has no lasting effect, because the
  loop runs over the list present on entry and its result overwrites the field.

## Model

| member | source | states |
|---|---|---|
| Items.ShopWeapon | game.go:161-171 | The weapon a purchase installs is usable (a range lo <= hi with lo >= 0), has the bought type, and costs exactly its table price. |
| Items.ShopConsumable | game.go:172-179 | A bought potion is unused (start time -1), a health potion is instantaneous and heals 5, and each stat potion lasts 3 turns and raises only its own stat by 2. |
| Items.CatalogueMatchesTable | game.go:78-113 | The table lists exactly the five shop weapons and four potions. No item is both. Bare hands cannot be bought. Every potion the shop installs is a shop potion. |
| Items.GophermourneRequirementsDisagree | game.go:97-100 | The Gophermourne table entry asks for strength 2 and intel 2, while the installed record (game.go:171) carries strength 3 and intel 2. |
| Players.HasRequirements | game.go:116-152 | The loop over the entry's stat minimums, in any order, returns true exactly when the item is in the table, every listed minimum is met (an unknown stat name never is), and gold covers the price. An item not in the table gives false. The player is not changed. |
| Players.EligibleByTable | game.go:78-152 | The requirement check, spelled out per item: Knife 10 gold; Sword strength 2 and 35 gold; Ninjaku agility 2 and 25; Wand intel 2 and 30; Gophermourne strength 2, intel 2 and 65; Health Potion 5; the stat potions 10. Any other item fails. |
| Players.Gopher.constructor | game.go:496-497 | A new player has health 30, 20 gold, all attributes and the turn at 0, bare hands (fixed damage 1), and empty inventory and active lists. The invariant holds. |
| Players.Gopher.Buy | game.go:155-184 | A failed check changes nothing. A successful one deducts exactly the table price (so gold stays >= 0). A weapon purchase replaces the weapon and leaves the inventory as it was. A potion purchase appends one unused potion at the end and keeps the weapon. The invariant is kept. |
| Players.Gopher.Attack | game.go:187-206 | The damage is the fixed value or lo + draw within [lo, hi]. The defender's health becomes max(0, old - damage), so it stays in [0, old]. Game over holds exactly when it reaches 0. Only the defender's health changes. |
| Players.Gopher.Work | game.go:209-214 | Gold rises by 5 + draw, an amount in [5, 15], and nothing else changes. |
| Players.Gopher.Use | game.go:217-248 | If no entry has the type, nothing changes. Otherwise the FIRST matching entry leaves the inventory, the others keep their order, and the entry joins the end of the active list stamped with the current turn. A health potion sets health to min(30, health + 5), with no change at 30; a stat potion adds 2 to its stat. The invariant is kept. |
| Players.Gopher.Consume | game.go:220-244 | Using inventory entry i has the effect just described, and keeps the invariant: the attribute bases are unchanged because the bonus rises by exactly what the potion added. |
| Players.Gopher.RemovePortionFromInventory | game.go:250-259 | The active list becomes the entries of every other type, in order. |
| Players.Gopher.RemoveExpiredConsumables | game.go:262-284 | The active list becomes exactly the entries that persist on the current turn, in order. Each attribute drops by exactly the bonus of its expiring potions. The invariant is kept, because every attribute base is unchanged. |
| Players.Gopher.Train | game.go:287-322 | Training happens exactly when gold >= 5, the stat name is known, and stat + 2 < 10. Then the stat rises by 2, gold drops by 5, and the trained stat ends below 10. Otherwise nothing changes. The invariant is kept. |
| Players.Gopher.Game | game.go:370-473 | A turn first expires effects, then acts. The invariant holds for both players; name and turn are unchanged. The game ends exactly on Exit or when an attack leaves the opponent at 0. Only an attack changes the opponent's health, and never upward. Unless the turn uses an item, the active list is what expiry kept. |
| Players.Gopher.Act | game.go:379-472 | One menu action keeps both invariants and ends the game exactly on Exit or on a fatal attack. Only an attack touches the opponent. Only Use touches the active list. |
| Players.Round | game.go:499-508 | Player one moves, then player two. If the game goes on, both turn counters rise by exactly 1. It can end only through an attack or an exit. Both invariants hold. |
| Potions.FirstIndex | game.go:218-219 | The index found is the first entry of the type, or the length when there is none. Every earlier entry has another type. |
| Potions.KeptMembers | game.go:265-267 | An entry survives expiry exactly when it was active and is instantaneous, never started, or not at its last turn. |
| Potions.KeptAppend | game.go:265-267 | Expiry acts entry by entry: it distributes over concatenation, so survivors keep their relative order. |
| Potions.KeptIdempotent | game.go:262-284 | Expiring twice on the same turn changes nothing the second time: the list stays and nothing more is taken back. This matters because re-prompting an invalid menu choice runs the turn, and its expiry, again (game.go:406). |
| Potions.PrefixStep | game.go:265-279 | One loop step of expiry extends the survivors and each attribute's takeback by the current entry's share. |
| Potions.WithoutTypeMembers | game.go:250-259 | After dropping a type, the remaining entries are exactly those of other types. |
| Potions.PrefixStepWithout | game.go:252-256 | One loop step of the per-type removal keeps the entry exactly when its type differs. |
| Potions.BonusSplit | game.go:266-279 | The active bonus before expiry equals the bonus of the survivors plus what expiry takes back. |
| Potions.Activate | game.go:230-242 | Stamping a shop potion with the turn keeps it a shop potion. Appending it to the active list raises its own stat's bonus by the potion's effect and leaves the others unchanged. |
| Potions.UseKeepsBase | game.go:217-243 | Using an inventory entry keeps both lists made of shop potions and leaves every attribute's base (the attribute minus its active bonus) in range. |
| Potions.ExpiryKeepsBase | game.go:262-284 | Expiry keeps the active list made of shop potions, and taking back what it reverses leaves every attribute's base in range. |
| Potions.BonusNonNegative | game.go:173-179 | Shop potions never carry a negative bonus. |
| Potions.ExpiresAt | game.go:266 | A started potion with a positive duration fails to persist exactly on turn start + duration - 1. |
| Potions.ReversedExactlyOnce | game.go:262-284 | Over any window of consecutive turns, a started potion that is the only active entry has its bonus taken back exactly once if its last turn falls in the window, and never otherwise. The general case is Potions.ActiveReversedExactlyOnce. |
| Potions.ReversalAppend | game.go:265-279 | What one expiry takes back for an attribute is the sum of what it takes back from each part of the active list. |
| Potions.ReversalOverAppend | game.go:262-284 | Over a window of turns, what expiry takes back from a list is the sum of what it takes back from each of its parts. |
| Potions.ActiveReversedExactlyOnce | game.go:262-284 | A started potion anywhere in the active list, among any other entries, has its bonus taken back exactly once over a window that contains its last turn (start + duration - 1), and not at all over one that does not. The other entries contribute what they would contribute on their own. |
| Potions.HealthPotionsLinger | game.go:240-266 | An instantaneous entry (a health potion) survives every expiry and stays at the end of the list. |

## Left out

- Console output, `displayList` and the other menu printers, `printDetails`, and `clearConsole` are not modelled. They only print, sleep or spawn a shell command.
- The menu input (`fmt.Scanln`) is replaced by a `Choice` value that already names the action, the item or the stat. A selection that re-prompts (game.go:406, 427, 447, 463, 471) is not a turn of its own. Its repeated expiry is harmless, as `Potions.KeptIdempotent` shows. The unrecognised consumable choice at game.go:422-423 changes nothing, like buying an item that is not in the table.
- `os.Exit` (game.go:204, 468) is replaced by a returned game-over flag. `Round` returns it instead of looping forever.
- The random draws (game.go:193, 211) become parameters constrained to the range `rand.Intn` returns. The discarded `rand.NewSource` calls and `time` are not modelled.
- `checkInventory` (game.go:359-367) is not modelled: nothing calls it, and it only prints.
- Item type names are a closed datatype, not arbitrary strings; the game only ever passes the named constants. Stat names stay strings, as the requirement table and training use them.
- Go's 64-bit `int` is modelled as an unbounded integer. Gold and turn counters would need astronomically many turns to wrap.
- Players.Gopher.Game: states the invariants, the game-over condition, the opponent's health and the expiry outcome. It does not restate each action's effect, which the action methods state.
- Players.Gopher.Act: does not restate each action's effect, which the action methods state.
- Players.Round: states turn advance, end condition and invariants, not the per-turn effects, which `Game` states.
