# Online lounge: game economy, leaderboard, client bookkeeping and user cache

This project models the bookkeeping core of the online lounge game server and
its browser client, and proves properties of that model.

- **The daily leaderboard** (`Leaderboard`, leaderboard.dfy). A `Board` holds
  three arrays of five entries: coins, kills and deaths. Each array is sorted
  ascending and starts out filled with empty sentinels. The board is stamped
  with the `YYYYMMDD` date it was created on. A report either raises the
  entry carrying the reporter's ip and bubbles it forward, or evicts the
  minimum at index 0 and shifts the lower entries down. Both happen in place
  on the arrays.
- **The economy rules** (`EngineRules`, engine_rules.dfy). These are what one
  player record goes through:
  - picking up hearts, coins and bullets;
  - losing health to a hit, and fainting;
  - the reload regeneration and the soft respawn;
  - where a shot appears and how it moves;
  - the item-toggle chat commands;
  - burying treasure and the digging scan.
- **The world** (`EngineWorld`, world.dfy). The engine's maps of players,
  bullets, loose coins and items, plus the treasure list, as one value.
  - The `Consistent` invariant ties every record to its id, its join-order
    place and the world its body is in.
  - It limits the items to 25 and requires every bullet, coin and item id to
    have been handed out.
  - Every engine operation has a function here saying what it does to that
    value, and lemmas saying what it keeps and what it conserves.
  - The module also renders the leaderboard for the clients.
- **The engine** (`GameEngine`, engine.dfy). The `Engine` class holds the
  world and the leaderboard. Each of its methods is one operation of the game
  server and is proved against the `EngineWorld` function for it. The
  operations are:
  - join, leave, door changes, inputs and looks;
  - pickups, hits and coin drops;
  - shots, item spawns and chat commands;
  - burying and digging treasure;
  - the tick;
  - the collision handler.
- **The world-server client** (`WorldClient`, world_client.dfy). This is the
  browser side. It covers:
  - the `on`/`once`/`off`/`emit` listener registry;
  - the offline message queue, flushed when the socket opens;
  - the translation of a `gameSnapshot` message into the events the game
    scene receives (the local/remote player split, bullet directions, item
    spawn/remove diffing and the coin-increase check);
  - the older `convertGameState` translation.
- **The user cache** (`Users`, usercache.dfy). The ip→username map of
  `users.txt`, and the `ip,username` line format that `reloadCache` writes and
  `loadCache` reads, with the round trip between them.

Conventions:
- Clock readings (`now`, today's date) are parameters.
- The random placements and item kinds are parameters.
- The uuids of bullets, coins and items come from a counter (`nextId`).
- Socket-level emits are either left out or returned as data: the
  leaderboard's update flag, and the client's list of events.
- Area code 1 (the outdoor planet) is `Outdoor`. Every other code is
  `Lounge`, because every test in the code is `=== AREAS.digitalplanet`.
- `Option` (options.dfy) and decimal rendering and parsing of naturals
  (text.dfy) are shared helpers.

Quirks of the code are modelled as written and proved about explicitly:
- The dig scan can pass over a treasure. The `return` inside `forEach` only
  ends the callback, and `splice` during the iteration shifts the next
  treasure into the slot already visited (`EngineRules.DigSkipsNeighbour`).
- Reload coins come from a `timeOnline` that is never reset, so every later
  reload pays at least as much as the one before
  (`EngineRules.RegenGrantNeverShrinks`).
- A once-listener removes itself during `forEach`, so the listener after it
  is not called (`WorldClient.OnceSkipsNext`).
- `/invincible$` sets health to 1000000. The health invariant
  `HealthInRange` is therefore stated per operation, and is not part of
  `Consistent`.
- A faint with the shooter gone makes the death-feed line read `kills` of a
  missing record. `HitByBullet` reports this as `crashed`, after the state
  changes the code has made by then.
- `removePlayer` only drops the body from the outdoor world, so a lounge
  player's body stays behind (`EngineWorld.Left`).

## Model

| member | source | states |
|---|---|---|
| `Text.ParseNatToString` | routes/leaderboard.js:5-8 | reading back the decimal rendering of a number gives the number |
| `Text.NatToStringInjective` | routes/leaderboard.js:5-8 | different numbers render differently |
| `Text.FourDigits` | routes/leaderboard.js:5-8 | a four-digit year renders as exactly four characters |
| `Leaderboard.Pad2Layout` | routes/leaderboard.js:6-7 | a month or day (1..31) becomes two digits that read back as itself, with a leading '0' below 10 |
| `Leaderboard.YyyymmddLayout` | routes/leaderboard.js:1-9 | the stamp of a date with a four-digit year has 8 digits: the year, then the two-digit month and day, each reading back as itself |
| `Leaderboard.YyyymmddInjective` | routes/leaderboard.js:1-9 | two different dates never share a stamp, so a change of day is always seen by the reset check |
| `Leaderboard.EmptyList` | routes/leaderboard.js:20-41 | a freshly filled list has 5 entries, all with number 0 and no ip, and is sorted |
| `Leaderboard.FindIpFrom` | routes/leaderboard.js:62-63 | the first index from `j` on whose entry has the ip, or none when no later entry has it |
| `Leaderboard.FindIp` | routes/leaderboard.js:62-63 | the first index whose entry has the reported ip; no earlier entry has it; none when no entry has it |
| `Leaderboard.LastBelowUpTo` | routes/leaderboard.js:86-87 | the downward scan finds the highest index below `n` whose number is strictly below the value, or proves there is none |
| `Leaderboard.Raise` | routes/leaderboard.js:64-71 | a found entry keeps its ip, takes the reported username, and its number rises to the larger of the old and the reported value |
| `Leaderboard.SwapPermutes` | routes/leaderboard.js:75 | an adjacent swap only reorders the entries |
| `Leaderboard.BubblePermutes` | routes/leaderboard.js:72-78 | the forward pass of swaps only reorders the entries |
| `Leaderboard.AddStat` | routes/leaderboard.js:51-57 | a report keeps the length and the order, and is ignored when it is below the minimum `list[0].number` |
| `Leaderboard.Standings.Add` | routes/leaderboard.js:51-57 | a report changes only the list of its own statistic, as `AddStat` says, and keeps all three lists five long and sorted |
| `Leaderboard.EmptyStandings` | routes/leaderboard.js:11-41 | a new board has three well-formed lists (coins, kills, deaths), each the empty list |
| `Leaderboard.AddAll` | routes/leaderboard.js:51-104 | any sequence of reports keeps every list five long and sorted |
| `Leaderboard.AddAllOther` | routes/leaderboard.js:61-62 | reports of other statistics never touch a list |
| `Leaderboard.BubbleSorts` | routes/leaderboard.js:72-78 | once the found entry has been raised, one forward pass of adjacent swaps from its index restores ascending order |
| `Leaderboard.BubbleSortedNoop` | routes/leaderboard.js:72-78 | on a list already in order the forward pass swaps nothing |
| `Leaderboard.RaisedSortedExcept` | routes/leaderboard.js:64-71 | raising one entry of a sorted list leaves it sorted apart from that entry, which is at least all before it |
| `Leaderboard.EvictSorted` | routes/leaderboard.js:86-96 | evicting at the highest index below the new value keeps the list sorted |
| `Leaderboard.InsertedPreserves` | routes/leaderboard.js:59-104 | every insertion keeps the length 5, and keeps a sorted list sorted |
| `Leaderboard.InsertedExisting` | routes/leaderboard.js:62-78 | a known ip: the result is that entry raised and bubbled forward; its number never drops and its username is overwritten |
| `Leaderboard.InsertedNew` | routes/leaderboard.js:86-96 | a new ip above the minimum: the entry at index 0 is evicted, entries 1..i shift down one slot, and the new entry lands at the highest i whose number is strictly below the value |
| `Leaderboard.EvictPermutes` | routes/leaderboard.js:89-96 | an eviction takes out exactly the minimum and adds exactly the new entry |
| `Leaderboard.InsertedNewEvictsMinimum` | routes/leaderboard.js:86-96 | the entries after a new-ip insertion are the old ones without the minimum, plus the new one |
| `Leaderboard.EqualToMinimumNoChange` | routes/leaderboard.js:86-87 | a new ip reporting exactly the minimum passes the `>=` gate but never meets the strict `>`, so nothing changes |
| `Leaderboard.RaisedChanges` | routes/leaderboard.js:62-82 | for a known ip the list changes exactly when the raised entry differs from the old one |
| `Leaderboard.InsertedChanges` | routes/leaderboard.js:59-104 | the list changes exactly when a number, a username or a position changes, which is when the update callback fires |
| `Leaderboard.BubbleForward` | routes/leaderboard.js:72-78 | the in-place `while` loop of swaps computes the forward pass, and swaps nothing on a sorted array |
| `Leaderboard.ShiftDown` | routes/leaderboard.js:89-96 | the in-place `for` loop moves entries 1..i down one slot and writes the new entry at i |
| `Leaderboard.RaiseAt` | routes/leaderboard.js:62-84 | the found case in place: the array becomes the insertion result; `updated` is true exactly when the array changed |
| `Leaderboard.InsertIntoList` | routes/leaderboard.js:59-104 | the insertion in place: the array becomes `Inserted` of its old contents; `updated` (the callback firing) is true exactly when the array changed |
| `Leaderboard.Board.constructor` | routes/leaderboard.js:12-18 | a new board is stamped with today's date and has three fresh arrays of five sentinels |
| `Leaderboard.Board.CheckForReset` | routes/leaderboard.js:43-49 | the same board when today's stamp equals `date`; otherwise a brand-new all-sentinel board stamped today |
| `Leaderboard.Board.AddStats` | routes/leaderboard.js:51-57 | the statistic's array becomes `AddStat` of its old contents, the other arrays stay as they were, and `updated` says whether it changed |
| `EngineRules.NewPlayer` | routes/engine.js:315-341 | a joining player starts with health 3, no item, zero bullets, coins, kills, deaths and time online, and the reload clock at `now` |
| `EngineRules.CollectItem` | routes/engine.js:200-222 | a bullet item adds exactly one bullet and a coin exactly one coin; a heart adds one health only below 3; nothing else changes |
| `EngineRules.Hit` | routes/engine.js:224-229 | no effect at health 0; otherwise health drops by exactly one, and reaching 0 adds one death |
| `EngineRules.CreditKill` | routes/engine.js:239-242 | the shooter's kills go up by one and no other field of the record changes |
| `EngineRules.DropCount` | routes/engine.js:451-456 | nothing is dropped indoors, with an empty purse or for an amount of 0; a drop is the amount asked for, capped at the balance |
| `EngineRules.Regen` | routes/engine.js:279-291 | time online grows by the tick; when the interval has strictly passed, 3 bullets and `timeOnline / 60000` coins are granted and the reload clock reset; otherwise nothing else changes |
| `EngineRules.RegenGrantNeverShrinks` | routes/engine.js:279-291 | because time online is never reset, each later reload grants at least as many coins as the one before |
| `EngineRules.SoftRespawn` | routes/engine.js:618-623 | a player at health 0 pressing any direction gets health 3; otherwise nothing changes |
| `EngineRules.TickPlayer` | routes/engine.js:278-293 | one player's visit in a tick keeps identity and area, adds the elapsed time, never lowers bullets or coins, and keeps health in range |
| `EngineRules.MuzzleAlongVelocity` | routes/engine.js:474-508 | the muzzle offset is +18y for s, +16x for d, -18y for w and -16x for a, and points the way the bullet flies; offset and velocity are both zero exactly for an unknown direction |
| `EngineRules.Fire` | routes/engine.js:435-436 | a successful shot takes exactly one bullet and changes no other field |
| `EngineRules.CommandItem` | routes/engine.js:510-574 | a toggle command never names the empty-handed state, so it always toggles a real item |
| `EngineRules.Toggle` | routes/engine.js:515-520 | a toggle puts the named item in hand exactly when it was not held, and otherwise leaves the hands empty |
| `EngineRules.ControllerAliases` | routes/engine.js:566-573 | "/gaming", "/game" and "/controller" all toggle the controller |
| `EngineRules.ToggleTwice` | routes/engine.js:515-520 | toggling an item twice from no item or from that item returns to where it started; from a different item it ends with no item |
| `EngineRules.BuriedTreasure` | routes/engine.js:352-360 | the buried record holds the whole balance, the player's position and username, and lies within dig range of that spot |
| `EngineRules.Splice` | routes/engine.js:386 | `splice(index, 1)`: one entry fewer, the entries before the index unchanged and those after it shifted down by one; an index past the end changes nothing |
| `EngineRules.SpliceMultiset` | routes/engine.js:386 | splicing takes exactly one copy out of the list |
| `EngineRules.DigScanSound` | routes/engine.js:367-378 | the scan claims only treasure in range, and every treasure ends up claimed or still buried, once |
| `EngineRules.DigNoMatch` | routes/engine.js:367-378 | a dig with nothing in range changes nothing |
| `EngineRules.DigSingle` | routes/engine.js:367-378 | with exactly one treasure in range, the dig claims it, removes it, and keeps the rest in order |
| `EngineRules.DigSkipsNeighbour` | routes/engine.js:371-386 | of two adjacent treasures in range only the first is claimed, because the splice shifts the second into the visited slot |
| `EngineRules.BuryThenDig` | routes/engine.js:352-393 | when no earlier treasure in the list lies within dig range of the spot, burying and then digging there claims exactly the buried treasure and restores the balance (an earlier treasure in range is claimed instead, and the buried one slides into the slot already visited, see `DigSkipsNeighbour`) |
| `EngineWorld.PlacedIn` | routes/engine.js:315-341 | in a consistent world each record sits under its own id and in the join order, and its body is outdoors exactly when its area is |
| `EngineWorld.EmptyWorld` | routes/engine.js:71-75 | the engine starts with an empty, consistent world |
| `EngineWorld.JoinKeepsConsistent` | routes/engine.js:315-341 | adding a new player keeps the world consistent |
| `EngineWorld.LeaveKeepsConsistent` | routes/engine.js:660-671 | removing a player keeps the world consistent |
| `EngineWorld.RejoinGoesLast` | routes/engine.js:315-318 | after leaving and joining again, a player has a fresh record at the end of the join order, so it is ticked last |
| `EngineWorld.MoveKeepsConsistent` | routes/engine.js:627-643 | moving a body to the world of its area keeps the world consistent |
| `EngineWorld.DoorsSwapWorlds` | routes/engine.js:627-643 | after entering, the body is in the lounge only, at (256,448); after exiting, outdoors only, at (525,325); no player is added or lost |
| `EngineWorld.ScatterContents` | routes/engine.js:458-470 | the coin loop adds exactly the `n` new ids, each holding a coin tagged with the dropper, and keeps the old coins |
| `EngineWorld.ScatterSize` | routes/engine.js:458-470 | with fresh ids the loose-coin map grows by exactly `n` |
| `EngineWorld.ScatterCoins` | routes/engine.js:458-470 | the coin loop computes the scattered map |
| `EngineWorld.NothingDropped` | routes/engine.js:451-456 | a drop of zero coins leaves the world as it was |
| `EngineWorld.DropKeepsConsistent` | routes/engine.js:451-472 | a coin drop keeps the world consistent |
| `EngineWorld.DropConservesCoins` | routes/engine.js:451-472 | the purse shrinks by exactly as many coins as the ground gains |
| `EngineWorld.DisplayName` | routes/engine.js:665 | the name shown for a player is its username, or "[anonymous]" when that is empty |
| `EngineWorld.CreditKeepsConsistent` | routes/engine.js:239-247 | crediting the shooter keeps the world consistent |
| `EngineWorld.HitTakesOneHealth` | routes/engine.js:224-247 | a hit changes nothing at health 0; otherwise the victim loses exactly one health; no player appears or leaves; nobody but the victim and the shooter changes |
| `EngineWorld.FaintConservesCoins` | routes/engine.js:228-238 | a faint adds one death and sets health to 0; outdoors the whole purse goes to the ground, indoors the purse and the ground stay; coins already lying stay; every new coin lies at the victim's position tagged with the victim; a connected shooter gains one kill |
| `EngineWorld.ShotKeepsConsistent` | routes/engine.js:433-449 | a shot keeps the world consistent |
| `EngineWorld.ShotAddsOneBullet` | routes/engine.js:433-449 | a shot adds exactly one bullet under a fresh id, fired by the shooter, at the muzzle position, with the direction's velocity and the direction; all other bullets stay; the shooter has one bullet less |
| `EngineWorld.SpawnKeepsConsistent` | routes/engine.js:309-313 | a spawn keeps the world consistent (so never more than 25 items) and adds exactly one item while fewer than 25 exist |
| `EngineWorld.CommandKeepsConsistent` | routes/engine.js:510-597 | a chat command keeps the world consistent |
| `EngineWorld.CommandEffects` | routes/engine.js:510-597 | a toggle changes only the commander's item; "/bullets$" adds 5 bullets; "/invincible$" sets health to 1000000; "/reset$" clears the items and changes no player; other players never change; anything else changes nothing |
| `EngineWorld.BuryKeepsConsistent` | routes/engine.js:352-365 | burying keeps the world consistent |
| `EngineWorld.DigStandings` | routes/engine.js:387-391 | a dig only posts coin reports, never kills or deaths |
| `EngineWorld.DigStarts` | routes/engine.js:371 | the scan starts from the unchanged world with nothing claimed |
| `EngineWorld.DigClaims` | routes/engine.js:372-374 | claiming the treasure in slot `k` is `foundTreasure` on the world reached so far, and keeps the scan on track |
| `EngineWorld.DigPasses` | routes/engine.js:371-376 | a slot out of range, or past the shrunken end, is passed over |
| `EngineWorld.DigEnds` | routes/engine.js:367-378 | after every original slot has been visited, the world is the dug world and the claims are the scan's |
| `EngineWorld.DigScanCoins` | routes/engine.js:367-386 | the scan neither creates nor destroys coins: claimed plus remaining equals what was buried |
| `EngineWorld.TreasureConservesCoins` | routes/engine.js:352-393 | burying and digging move coins between purse and ground without creating any |
| `EngineWorld.DigKeepsConsistent` | routes/engine.js:367-393 | a dig keeps the world consistent |
| `EngineWorld.TickStandings` | routes/engine.js:285-290 | a tick only posts coin reports, never kills or deaths |
| `EngineWorld.TickAllKeys` | routes/engine.js:278-294 | a tick neither adds nor removes players |
| `EngineWorld.TickAllOnce` | routes/engine.js:278-294 | visiting a list without repeats ticks each listed player exactly once, from its record before the tick, and leaves the others alone |
| `EngineWorld.TickKeepsConsistent` | routes/engine.js:278-294 | the walk over the players keeps the world consistent |
| `EngineWorld.TickVisitsEveryone` | routes/engine.js:278-294 | in a consistent world a tick visits every player exactly once |
| `EngineWorld.TickedKeepsConsistent` | routes/engine.js:260-298 | a whole tick, preparation and visits, keeps the world consistent |
| `EngineWorld.PrepareKeepsConsistent` | routes/engine.js:260-277 | the day check, the clock and the item spawn keep the world consistent and leave the players alone |
| `EngineWorld.InWorldKnown` | routes/engine.js:148-150 | a body of a consistent world that is a player belongs to a connected player |
| `EngineWorld.BulletMeets` | routes/engine.js:152-165 | one side of the bullet block keeps the set of players and a well-formed board |
| `EngineWorld.Collected` | routes/engine.js:200-222 | collecting an item keeps the set of players and a well-formed board, and never crashes |
| `EngineWorld.ItemTaken` | routes/engine.js:169-174 | one side of the item block keeps the set of players and a well-formed board, and never crashes |
| `EngineWorld.CoinTaken` | routes/engine.js:184-189 | one side of the coin block keeps the set of players and a well-formed board, and never crashes |
| `EngineWorld.BulletsCollide` | routes/engine.js:151-166 | the bullet block keeps the set of players and a well-formed board |
| `EngineWorld.ItemsCollide` | routes/engine.js:168-181 | the item block keeps the set of players and a well-formed board, and never crashes |
| `EngineWorld.CoinsCollide` | routes/engine.js:183-196 | the coin block keeps the set of players and a well-formed board, and never crashes |
| `EngineWorld.Collision` | routes/engine.js:148-197 | the whole handler keeps the set of players and a well-formed board |
| `EngineWorld.CollisionFrames` | routes/engine.js:148-197 | the handler moves no body between worlds, keeps the join order and the treasure, and adds no bullet or item; a bullet meeting anyone but its shooter is removed; unless a faint crashed the handler, each item of the pair and each loose coin collected by someone other than its dropper is removed |
| `EngineWorld.BulletHitsPlayer` | routes/engine.js:151-166 | a bullet meeting a player other than its shooter, in either order: the bullet is removed and the player takes the hit (one health less when it has any, the faint's drop, kill credit and death and kill reports); the handler crashes exactly when the victim faints and the shooter is gone |
| `EngineWorld.OwnBulletPasses` | routes/engine.js:153 | a bullet meeting its own shooter, in either order, changes nothing |
| `EngineWorld.ItemPickedUp` | routes/engine.js:168-181 | an item meeting a player, in either order: the item is removed, the player's record is `collectedItem`'s, and a coin-type item posts the new balance to the coins list while other types leave the board alone |
| `EngineWorld.ItemsMeet` | routes/engine.js:168-181 | two items meeting both disappear while the players and the board stay as they were |
| `EngineWorld.CoinPickedUp` | routes/engine.js:183-196 | a loose coin meeting a player, in either order: its dropper leaves it lying and nothing changes; anyone else removes it, gains one coin and posts the new balance to the coins list |
| `EngineWorld.InertMeet` | routes/engine.js:148-197 | two bodies that are players or walls meeting change nothing |
| `EngineWorld.RenderList` | routes/engine.js:741-748 | each list renders entry by entry: "name - number" above zero, "" for a zero score |
| `EngineWorld.Render` | routes/engine.js:741-748 | the display has one line per entry of each of the three lists |
| `EngineWorld.RenderedScoreReadsBack` | routes/engine.js:741-748 | the text after the username and " - " on a displayed line reads back as the score |
| `GameEngine.TickPlayers` | routes/engine.js:278-294 | the forEach of a tick computes `TickAll` and posts exactly the reload coin reports of `TickStandings` |
| `GameEngine.TickWorld` | routes/engine.js:260-298 | a tick's world changes are `Tick`, and its posts are `TickPosts`; the world stays consistent |
| `GameEngine.Engine.constructor` | routes/engine.js:57-83 | a new engine has an empty world and a new board for today |
| `GameEngine.Engine.AddPlayer` | routes/engine.js:315-350 | a new id joins with the initial record; a known id changes nothing |
| `GameEngine.Engine.RemovePlayer` | routes/engine.js:660-671 | a known player leaves and its display name is returned; an unknown id returns None and changes nothing |
| `GameEngine.Engine.EnterLounge` | routes/engine.js:627-634 | a known player is moved to the lounge door; an unknown id changes nothing |
| `GameEngine.Engine.ExitLounge` | routes/engine.js:636-643 | a known player is moved to the outdoor door; an unknown id changes nothing |
| `GameEngine.Engine.UpdatePlayer` | routes/engine.js:645-650 | only the player's inputs change; an unknown id changes nothing |
| `GameEngine.Engine.SetPlayerLook` | routes/engine.js:652-658 | only the player's look changes; an unknown id changes nothing |
| `GameEngine.Engine.CollectedItem` | routes/engine.js:200-222 | the record changes as `CollectItem` says, and only a coin is reported to the board |
| `GameEngine.Engine.DropCoins` | routes/engine.js:451-472 | the world becomes the drop of `DropCount` coins; an unknown id changes nothing |
| `GameEngine.Engine.RemoveLooseCoin` | routes/engine.js:412-418 | the coin is gone, whether or not it still existed; nothing else changes |
| `GameEngine.Engine.RemoveItem` | routes/engine.js:403-410 | the item is gone, whether or not it still existed; nothing else changes |
| `GameEngine.Engine.HitByBullet` | routes/engine.js:224-254 | the world becomes `HitWorld`, the board gets the reports of `HitStandings`, and `crashed` holds exactly when a faint finds no shooter |
| `GameEngine.Engine.Faint` | routes/engine.js:228-250 | a faint reports the death, drops the whole purse outdoors (nothing indoors), credits and reports a present shooter's kill, and crashes exactly when the shooter is gone |
| `GameEngine.Engine.ShootBullet` | routes/engine.js:433-449 | a bullet is returned exactly when the player exists, is outdoors and has bullets; the world then becomes `Shot`; otherwise nothing changes |
| `GameEngine.Engine.SpawnRandomItem` | routes/engine.js:309-313 | an item is added while fewer than 25 exist |
| `GameEngine.Engine.ExecuteCommand` | routes/engine.js:510-597 | the world becomes `Commanded`; a toggle command of a known player returns the item now held, anything else returns None |
| `GameEngine.Engine.BuryTreasure` | routes/engine.js:352-365 | an outdoor player buries its whole balance; otherwise nothing changes |
| `GameEngine.Engine.FoundTreasure` | routes/engine.js:380-393 | the treasure's coins are credited, the entry at the index is spliced out, and the balance is reported |
| `GameEngine.Engine.DigForTreasure` | routes/engine.js:367-378 | an outdoor player's dig leaves the world `Dug` and posts the balance after each claim; otherwise nothing changes |
| `GameEngine.Engine.DigSlot` | routes/engine.js:371-376 | one callback of the forEach: the treasure now in slot `k` is claimed when in range, and afterwards the world, the board and what remains of the scan still add up to the whole dig |
| `GameEngine.Engine.Update` | routes/engine.js:260-298 | no players: nothing changes; otherwise a new day brings a fresh board and clears the treasure, then the world becomes `Tick` and the board gets its reload posts |
| `GameEngine.Engine.CollisionStart` | routes/engine.js:148-197 | the handler's new world, new board and crash are exactly `EngineWorld.Collision`: the bullet block, then (unless a faint crashed it) the item block, then the coin block |
| `GameEngine.Engine.CollideBullets` | routes/engine.js:151-166 | the bullet block is `EngineWorld.BulletsCollide`: each side in turn, the second skipped after a crash |
| `GameEngine.Engine.CollideItems` | routes/engine.js:168-181 | the item block is `EngineWorld.ItemsCollide`: each side in turn |
| `GameEngine.Engine.ItemMeets` | routes/engine.js:169-174 | one side of the item block is `EngineWorld.ItemTaken`, for the world and the board |
| `GameEngine.Engine.CollideCoins` | routes/engine.js:183-196 | the coin block is `EngineWorld.CoinsCollide`: each side in turn |
| `GameEngine.Engine.CoinMeets` | routes/engine.js:184-189 | one side of the coin block is `EngineWorld.CoinTaken`, for the world and the board |
| `GameEngine.Engine.BulletMeetsPlayer` | routes/engine.js:152-165 | one side of the bullet block is `EngineWorld.BulletMeets`: the world, the board and whether the faint crashed |
| `WorldClient.IndexOf` | public/src/WorldServerClient.js:272 | the position of the first occurrence of the listener, or -1 exactly when it is absent |
| `WorldClient.RemoveFirstTakesOne` | public/src/WorldServerClient.js:270-276 | removing a listener takes out exactly its first occurrence and keeps the rest in order; an absent one changes nothing |
| `WorldClient.EmitRemovesCalledOnces` | public/src/WorldServerClient.js:251-286 | an emit removes from the list exactly the once-wrappers it called, and nothing else |
| `WorldClient.EmitPlain` | public/src/WorldServerClient.js:283-286 | without once-wrappers an emit calls every listener in order and leaves the list alone |
| `WorldClient.OnceRunsOnce` | public/src/WorldServerClient.js:251-257 | a once-listener is called on the first emit and removed, so the second emit does not call it |
| `WorldClient.OnceSkipsNext` | public/src/WorldServerClient.js:251-286 | a once-wrapper that removes itself during forEach makes the listener after it go uncalled |
| `WorldClient.OrNull` | public/src/WorldServerClient.js:360 | JavaScript's falsy default: a missing value and the empty string both give null, any other string is kept |
| `WorldClient.FalsyFieldsLookMissing` | public/src/WorldServerClient.js:358-360 | JavaScript's falsy defaults treat a falsy field as missing: a look index or area of 0, or an empty held item, shows the same remote view as a snapshot without that field; without them the view has look 0 and area 1 |
| `WorldClient.FindLocal` | public/src/WorldServerClient.js:345-347 | the local player is a snapshot player whose id is the session's; none exactly when no player has it |
| `WorldClient.Remotes` | public/src/WorldServerClient.js:348-350 | the remote players are exactly the snapshot players whose id differs from the session's |
| `WorldClient.SplitIsTotal` | public/src/WorldServerClient.js:345-350 | with no local player all players are remote; with one, fewer are |
| `WorldClient.VelocityToDirection` | public/src/WorldServerClient.js:365-377 | vertical motion wins only when strictly larger: up (0) for vy < 0, else down (2); otherwise left (1) for vx < 0, else right (3), so ties go horizontal |
| `WorldClient.DirectionReadsBack` | public/src/WorldServerClient.js:365-377 | a cross-check of the engine's key numbering against the client's velocity reading, two tables that never meet in the program (the engine's snapshots send a direction, routes/engine.js:690-698): for a known direction the engine's velocity reads back as that direction, and the zero velocity of an unknown one reads as right |
| `WorldClient.Convert` | public/src/WorldServerClient.js:352-407 | one converted player per remote, one bullet per bullet, one coin per loose coin; a local view exists only for the session's id |
| `WorldClient.ConvertedRemotesAreOthers` | public/src/WorldServerClient.js:348-363 | the converted players are exactly the views of the snapshot players other than the session's |
| `WorldClient.ConvertedLocalIsSession` | public/src/WorldServerClient.js:392-404 | the local view is present exactly when some snapshot player has the session's id |
| `WorldClient.BroadcastEvents` | public/src/WorldServerClient.js:413-441 | the broadcasts become at most one feed or player-action event each |
| `WorldClient.BroadcastEvent` | public/src/WorldServerClient.js:413-441 | at most one event per broadcast: a feed broadcast exactly gives a feed event with its data, and a chat, action or look broadcast exactly gives a player-action event of the matching kind (said, acted, looked) for the same player; a broadcast of any other type yields nothing |
| `WorldClient.BroadcastEventsAppend` | public/src/WorldServerClient.js:413-441 | broadcasts are handled one at a time, in order: the events of two lists in a row are the events of the first followed by those of the second, and one broadcast yields exactly its own event |
| `WorldClient.TrackHoldsSnapshot` | public/src/WorldServerClient.js:483-486 | after the refill the tracked ids are exactly the snapshot's, each once, holding the last item with that id |
| `WorldClient.SpawnsExact` | public/src/WorldServerClient.js:461-473 | a spawn is emitted exactly for each snapshot item whose id was not tracked |
| `WorldClient.RemovesExact` | public/src/WorldServerClient.js:475-479 | a remove is emitted exactly for each tracked id the snapshot no longer has |
| `WorldClient.FirstSnapshotGetsAll` | public/src/WorldServerClient.js:449-458 | with nothing tracked, a non-empty snapshot gives one `getItems` event carrying all its items |
| `WorldClient.CoinUpdateOnlyOnIncrease` | public/src/WorldServerClient.js:489-501 | a coin update is emitted exactly when the count strictly exceeds the previous one; the first snapshot only records the baseline; health and bullets come first |
| `WorldClient.SecondRiseSparkles` | public/src/WorldServerClient.js:492-501 | of two snapshots with a rising count, the first is silent and the second emits the coin update |
| `WorldClient.CollectSpawns` | public/src/WorldServerClient.js:461-473 | the spawn loop computes the spawn events |
| `WorldClient.CollectRemoves` | public/src/WorldServerClient.js:475-479 | the loop over the tracked ids, in insertion order, computes the remove events |
| `WorldClient.Refill` | public/src/WorldServerClient.js:483-486 | clearing and refilling the tracked items computes `Track` |
| `WorldClient.ForEachListener` | public/src/WorldServerClient.js:285 | the forEach over a listener list computes `EmitScan` |
| `WorldClient.CoinItems` | public/src/WorldServerClient.js:700-702 | the legacy coins are exactly the items of type 2 |
| `WorldClient.LegacyBullets` | public/src/WorldServerClient.js:708-714 | every legacy bullet has direction 0 and keeps its id, position and shooter |
| `WorldClient.ConvertGameState` | public/src/WorldServerClient.js:680-720 | players correspond one for one to the remotes, in area 1 with no item; coins to the type-2 items; bullets have direction 0; treasures pass through |
| `WorldClient.Client.constructor` | public/src/WorldServerClient.js:21-32 | a new client is disconnected, with no session, no listeners, an empty queue and nothing tracked |
| `WorldClient.Client.On` | public/src/WorldServerClient.js:241-246 | the listener is appended to its event's list, which is created when absent; other events are untouched |
| `WorldClient.Client.Once` | public/src/WorldServerClient.js:251-257 | a fresh once-wrapper, found in no list so far, is appended to the event's list |
| `WorldClient.Client.Off` | public/src/WorldServerClient.js:263-278 | an unknown event is a no-op; with no listener the event is deleted; with one only its first occurrence is removed |
| `WorldClient.Client.Emit` | public/src/WorldServerClient.js:283-286 | the registry becomes `AfterEmit` and the callbacks called are those the forEach visits, in order |
| `WorldClient.Client.Send` | public/src/WorldServerClient.js:223-236 | a connected client writes the message; a disconnected one appends it to the queue |
| `WorldClient.Client.HandleOpen` | public/src/WorldServerClient.js:291-308 | the client connects, sends the auth message first and then the whole queue in FIFO order, leaving it empty, and emits "connected" |
| `WorldClient.Client.Flush` | public/src/WorldServerClient.js:303-307 | the shift-and-send loop sends the queue oldest first and empties it |
| `WorldClient.Client.DiffItems` | public/src/WorldServerClient.js:444-486 | the events are the item diff against what was tracked, and afterwards the tracked items are the snapshot's |
| `WorldClient.Client.LocalUpdates` | public/src/WorldServerClient.js:489-501 | the local player's stat events and the new coin baseline |
| `WorldClient.Client.HandleGameSnapshot` | public/src/WorldServerClient.js:342-503 | the events are state and gameSnapshot of the conversion, then the broadcasts, the item diff and the local updates, in that order; the tracking and the coin baseline move on |
| `Users.Table.Set` | routes/usercache.js:13 | `Map.set`: afterwards the ip holds exactly the new entry, while every other ip is cached iff it was before and keeps its entry; a new ip goes last in the order, a known one keeps its place |
| `Users.SetKeepsWellFormed` | routes/usercache.js:10-23 | setting an entry keeps the table well formed; a new ip grows it by one, a known one leaves the size alone |
| `Users.FormatAll` | routes/usercache.js:39 | one `ip,username` line per entry, in insertion order |
| `Users.ParseLine` | routes/usercache.js:33-34 | the ip is the text before the first comma; the name is null for a line of at most one character, undefined for a longer line without a comma, and otherwise the comma-free text between the first comma and the next comma or the end |
| `Users.ParseFormatLine` | routes/usercache.js:32-39 | a storable entry's line parses back to the entry |
| `Users.LinesOfJoin` | routes/usercache.js:26-39 | splitting newline-joined break-free lines with a final newline gives the lines back |
| `Users.FormattedLinesUnbroken` | routes/usercache.js:39 | no line of storable entries contains a line break |
| `Users.LoadPrefix` | routes/usercache.js:32-35 | loading the first `n` formatted lines rebuilds the first `n` entries in order |
| `Users.LinesOfFormat` | routes/usercache.js:26-39 | the lines read from a written cache are exactly its formatted entries |
| `Users.LoadFormatted` | routes/usercache.js:32-39 | loading the formatted entries rebuilds the cache |
| `Users.LoadFormatRoundTrip` | routes/usercache.js:25-43 | writing a non-empty cache of storable entries and reading the file back gives the same entries in the same order |
| `Users.EmptyFileReadsBlankUser` | routes/usercache.js:32-43 | rewriting an empty cache writes "\n", which reads back as one blank ip with a null name |
| `Users.UserCache.constructor` | routes/usercache.js:5-8 | a new cache holds what the file loads to |
| `Users.UserCache.LoadCache` | routes/usercache.js:25-36 | the loop sets each line's entry in file order, later lines for an ip winning |
| `Users.UserCache.SaveUser` | routes/usercache.js:10-23 | a new ip is added, the map grows by one and its line is appended; a known ip with another name is replaced in place with the size unchanged and the file rewritten; the same name changes nothing |
| `Users.LinesAppend` | routes/usercache.js:14 | appending a break-free line and a newline to a text that is empty or ends a line adds exactly that line to what the reader yields |
| `Users.AppendedLineLoads` | routes/usercache.js:14-35 | loading a file after `saveUser` appended a storable entry's line gives the old load with that entry set |

## Left out

- Matter.js physics: forces, velocities, friction, mass and `Engine.update`. Positions are integer pairs. Bodies are membership in two id sets.
- The TMX tilemap loading and wall/block construction, because they are asynchronous file I/O.
- Randomness. Random positions, item kinds and drop velocities are parameters, or are left out. The uuids are a counter.
- Timers: the loose-coin expiry `setTimeout` and the tick `setInterval`. `RemoveLooseCoin` is the expiry's effect, with no schedule.
- The clock. `Date.now()` and `new Date()` are parameters. `Update` requires the clock not to run backwards.
- The rolling tick-rate average, because it is floating point and only a diagnostic.
- socket.io emits, broadcasts and the feed text. The feed line only matters for the crash it can cause, and that is reported as `crashed`.
- The engine world functions stop at what a call changes. Which messages go to which socket is not modelled.
- Only `pairs[0]` of a collision event is handled, as in the code.
- EngineWorld.Collision: its own contract only keeps the players and the board's shape, because it is the definition of the handler step; what the step does is stated by `BulletHitsPlayer`, `OwnBulletPasses`, `ItemPickedUp`, `ItemsMeet`, `CoinPickedUp`, `InertMeet` and `CollisionFrames`.
- EngineWorld.BulletsCollide: its own contract only keeps the players and the board's shape, because it is the definition of the handler step; what the step does is stated by `BulletHitsPlayer`, `OwnBulletPasses`, `ItemPickedUp`, `ItemsMeet`, `CoinPickedUp`, `InertMeet` and `CollisionFrames`.
- EngineWorld.BulletMeets: its own contract only keeps the players and the board's shape, because it is the definition of the handler step; what the step does is stated by `BulletHitsPlayer`, `OwnBulletPasses`, `ItemPickedUp`, `ItemsMeet`, `CoinPickedUp`, `InertMeet` and `CollisionFrames`.
- EngineWorld.ItemsCollide: its own contract only keeps the players and the board's shape, because it is the definition of the handler step; what the step does is stated by `BulletHitsPlayer`, `OwnBulletPasses`, `ItemPickedUp`, `ItemsMeet`, `CoinPickedUp`, `InertMeet` and `CollisionFrames`.
- EngineWorld.ItemTaken: its own contract only keeps the players and the board's shape, because it is the definition of the handler step; what the step does is stated by `BulletHitsPlayer`, `OwnBulletPasses`, `ItemPickedUp`, `ItemsMeet`, `CoinPickedUp`, `InertMeet` and `CollisionFrames`.
- EngineWorld.CoinsCollide: its own contract only keeps the players and the board's shape, because it is the definition of the handler step; what the step does is stated by `BulletHitsPlayer`, `OwnBulletPasses`, `ItemPickedUp`, `ItemsMeet`, `CoinPickedUp`, `InertMeet` and `CollisionFrames`.
- EngineWorld.CoinTaken: its own contract only keeps the players and the board's shape, because it is the definition of the handler step; what the step does is stated by `BulletHitsPlayer`, `OwnBulletPasses`, `ItemPickedUp`, `ItemsMeet`, `CoinPickedUp`, `InertMeet` and `CollisionFrames`.
- EngineWorld.Collected: its own contract only keeps the players and the board's shape, because it is the definition of the handler step; what the step does is stated by `BulletHitsPlayer`, `OwnBulletPasses`, `ItemPickedUp`, `ItemsMeet`, `CoinPickedUp`, `InertMeet` and `CollisionFrames`.
- A player body meeting a bullet, item or coin in the lounge world is not modelled, because the handler is registered on the outdoor world only.
- `spawnItem` is inlined in `SpawnRandomItem`, because its only caller is that method.
- `getPlayers`, `getBullets`, `getLooseCoins`, `getItems` and `getStats` are left out, because they are read-only views with floating-point rounding.
- A statline with several statistics is left out. The engine always reports exactly one, so `AddStats` takes one statistic.
- The leaderboard's `getRandomInt` is left out, because it is unused.
- `fillNull`'s sort is left out. Sorting five all-zero sentinels leaves them as they are, so the model fills the arrays directly.
- The WebSocket connection, the matchmaker, timeouts and the other `handleMessage` cases (`s`, `welcome`, chat and others).
- A `null` socket is folded into `connected`.
- The `send` failure path, where `ws.send` throws and the message is queued again, is not modelled.
- Callbacks are identities. A callback that changes the registry while it runs is not modelled. Only the once-wrapper's own `off` is.
- `HandleGameSnapshot` returns the events it emits instead of dispatching them to listeners.
- `convertGameState` is modelled on the snapshot shape it reads: `id`, `name`, `items`. The `connect` listener actually hands it the already-converted state, whose players carry `playerId`/`username` and which has no items. Under that use every player passes the session filter and the coin list is empty.
- `WorldClient.LegacyOf`: the `p.stats || {}` default of the legacy conversion is not modelled; a missing `stats` stays `None` where the code gives an empty object.
- `loadCache` runs asynchronously in the code. Here it completes in the constructor.
- The file is a string field: append and rewrite happen at once, with no I/O errors.
- readline is modelled as splitting on `\r\n`, `\r` and `\n`, with no empty last line. Unicode and encodings are not modelled.
- `saveUser` takes a string username. A non-string value, such as `null` written back as "null", arises only through loading.
- `Users.LoadFormatRoundTrip` is stated for non-empty caches of named entries whose fields hold no comma and no line break, and which are not both empty. Other entries do not survive the text format: the file does not escape them. An empty cache reads back as one blank entry, `Users.EmptyFileReadsBlankUser`.
