# RPG-JS game server, modelled in Dafny

This project models the authoritative game server of RPG-JS, a small
multiplayer tile RPG. The server keeps two id-keyed tables of entities:
the connected players and the monsters. It answers the socket requests of
the clients:

- connect and disconnect;
- `requestRespawn`, `requestTarget` and `requestAttack`;
- `requestMove`, a single step;
- `requestPath`, a path-finding request.

Every 200 ms it runs two phases:

- **movement**: every entity with a path advances one waypoint;
- **monster AI**: every idle monster looks for the closest live player, switches between patrolling, chasing and returning, attacks, or asks for a path.

The earlier single-file server `server/server.js` is modelled as well. It
has one table of plain player records, no monsters and no cooldown.

Layout, one Dafny module per file:

| module | content |
|---|---|
| `Wrappers` | `Option` |
| `Grid` | tiles, the pixel rule, the map cell lookup, squared distances against real ranges, `includes`, direction decoding |
| `EntityModel` | value semantics of `Entity`, `Player` and `Monster`: constructors with their defaults, `takeDamage`, `respawn`, `isAlive`, `getSnapshot`, `gainExperience` |
| `GameState` | the world as a value: the grid, both tables with their insertion orders, the table invariant, the occupancy test, the `{...players, ...monsters}` iteration order, the avoided tiles |
| `Rules` | the request handlers and the table lifecycle, as functions from the old state to the new state and the handler's answer |
| `Movement` | `executeMovement` |
| `MonsterAI` | `updateMonsterAI` and the three path-finder callbacks |
| `Entities` | the entity classes, whose fields are updated in place; each is proved against `EntityModel` |
| `Game` | the `GameManager` class over tables of entity objects; every method is proved against the value model through `View()` |
| `Legacy` | `server/server.js`: its value model, its lemmas, and a `LegacyServer` class over the mutable table |

Inputs the source takes from its environment become parameters:

- `Date.now()` becomes `now`.
- The two `Math.random()` draws of a patrol become a `Roll` per monster.
- A legacy player's random colour becomes an argument of `Legacy.Connect`.
- The result of an easystar `findPath` call is passed to the callback methods as `Option<seq<Tile>>`. `None` stands for "no path".
- The map imported from `server/config/map.js` is the grid given to the `GameManager` constructor. `server/config/map.js` is not part of this model.

## Model

| member | source | states |
|---|---|---|
| Grid.PixelRoundTrip | server/game/entities/Entity.js:8-9 | the pixel centre `t * 32 + 16` gives its tile back and sits mid-tile |
| Grid.PixelInjective | server/game/GameManager.js:170 | distinct tiles have distinct pixel coordinates |
| Grid.Cell | server/game/GameManager.js:38 | `map[y][x]` is defined exactly for an existing row and column, and then is that cell |
| Grid.MapBlockedIff | server/game/GameManager.js:38 | the map lets a tile through exactly when it is inside the grid and not a wall |
| Grid.FartherThanOneAndAHalf | server/game/GameManager.js:125-126 | `sqrt(d2) > 1.5` holds exactly when the squared distance is at least 3 |
| Grid.FartherThanWhole | server/game/GameManager.js:245 | against a whole-number detection range `r`, out of range means `d2 > r * r` |
| Grid.ClampBounds | server/game/GameManager.js:264-265 | the clamped patrol coordinate lies inside the map, and a coordinate already inside is kept |
| Grid.OccursAtContains | server/game/GameManager.js:164-165 | an occurrence of the keyword anywhere makes `includes` true |
| Grid.ContainsIff | server/game/GameManager.js:164-165 | `includes` is exactly the substring relation |
| Grid.ContainsAt | server/game/GameManager.js:164-165 | a string that `includes` another holds it at some index |
| Grid.DecodeDirection | server/game/GameManager.js:163-165 | each axis moves by at most one; `down` wins over `up`, `right` wins over `left`, and each keyword sets its sign exactly when it is present |
| Grid.UnknownDirectionIsNullStep | server/game/GameManager.js:163-165 | a direction with none of the four keywords decodes to the null step |
| EntityModel.NewBody | server/game/entities/Entity.js:3-17 | a new entity is well formed, alive at full health, idle, with its id, tile and speed |
| EntityModel.MoveTo | server/game/GameManager.js:169-170 | a move sets the tile and its pixel centre and changes nothing else |
| EntityModel.TakeDamage | server/game/entities/Entity.js:32-37 | only health changes; it stays at least 0, drops by exactly the amount while the entity survives, and the entity survives exactly when its health exceeded the amount |
| EntityModel.TakeDamageKeepsInv | server/game/entities/Entity.js:32-37 | a non-negative hit keeps the entity well formed and never heals |
| EntityModel.DeadStaysDead | server/game/entities/Entity.js:32-37 | a dead entity stays at 0 health whatever hits it |
| EntityModel.HitsHealth | server/game/entities/Entity.js:32-37 | after `n` hits health is `max(0, health - n * amount)`, and nothing else changes |
| EntityModel.SevenHitsOfTenKillSeventy | server/game/GameManager.js:128-133 | an orc's 70 health survives six player blows of 10 and falls to the seventh |
| EntityModel.Respawn | server/game/entities/Entity.js:19-26 | full health on the given tile with its pixel centre and no path; id, name, speed and move time are kept |
| EntityModel.RespawnRevives | server/game/entities/Entity.js:19-30 | a respawned entity is well formed and alive |
| EntityModel.EntitySnapshot | server/game/entities/Entity.js:40-55 | `playerId`, `color` and `isMonster` appear exactly as the entity kind provides them |
| EntityModel.SnapshotRoundTrip | server/game/entities/Entity.js:40-55 | the entity is rebuilt from its snapshot plus its path and move time: every other field is copied verbatim |
| EntityModel.SnapshotConsistent | server/game/entities/Entity.js:40-55 | a snapshot of a well-formed entity has pixels derived from the tile and health in `[0, maxHealth]` |
| EntityModel.PlayerName | server/game/entities/Player.js:7 | the name is `Player-` followed by the first four characters of the id, or the whole id if it is shorter |
| EntityModel.NewPlayer | server/game/entities/Player.js:5-14 | a new player is alive at 100 health, speed 180, `playerId` equal to its id, experience 0, level 1, no target, no path |
| EntityModel.GainExperience | server/game/entities/Player.js:16-20 | experience rises by exactly the amount; nothing else changes |
| EntityModel.GainExperienceAdds | server/game/entities/Player.js:16-20 | gains add up, and the level never changes |
| EntityModel.PlayerSnapshot | server/game/entities/Entity.js:40-55 | a player's snapshot carries its `playerId`, no `isMonster` and no colour (the random one is not modelled) |
| EntityModel.NewMonster | server/game/entities/Monster.js:5-26 | a new monster is alive at full health, patrolling, with no target, never attacked, and its spawn point is its start tile |
| EntityModel.MonsterDefaults | server/game/entities/Monster.js:11-19 | each of health 100, damage 5, experience 10, attack range 1.5 and cooldown 2000 applies exactly when the type's field is absent or zero (or equals the default) |
| EntityModel.MonsterSnapshot | server/game/entities/Entity.js:40-55 | a monster's snapshot has `isMonster` true, its type's `color` and no `playerId` |
| GameState.LiveEntityBlocks | server/game/GameManager.js:39-46 | every live player or monster blocks its own tile |
| GameState.BlockedIff | server/game/GameManager.js:37-48 | a tile the map lets through is blocked exactly when a live player or a live monster stands there; dead entities never block |
| GameState.EntityIdIsKey | server/game/GameManager.js:182 | under the table invariant `entity.playerId \|\| entity.id` is the entity's key |
| GameState.SpreadOrderMembers | server/game/GameManager.js:180 | `{...players, ...monsters}` visits each entity once: every monster, and every player whose key no monster shares |
| GameState.AvoidTiles | server/game/GameManager.js:181-186 | at most one avoided tile per entity listed |
| GameState.AvoidTilesIff | server/game/GameManager.js:181-186 | a tile is avoided exactly when a live entity of the list outside the skipped ids stands on it |
| GameState.PlayerSnapshots | server/game/GameManager.js:67-73 | the players' snapshot table has exactly the players' keys |
| GameState.MonsterSnapshots | server/game/GameManager.js:67-73 | the monsters' snapshot table has exactly the monsters' keys |
| Rules.RemoveKey | server/game/GameManager.js:86 | `delete` leaves every other key in the iteration order and removes that one |
| Rules.Connect | server/game/GameManager.js:75-78 | a connection adds exactly the socket id to the player keys; the monsters and the grid are untouched |
| Rules.ConnectEffect | server/game/GameManager.js:75-78 | a connection adds a live, idle player with no target on tile (2, 2); every other entry, the monsters and the grid are unchanged; the invariant holds |
| Rules.Disconnect | server/game/GameManager.js:85-88 | a disconnect removes exactly that key from the player keys; the monsters and the grid are untouched |
| Rules.DisconnectEffect | server/game/GameManager.js:85-88 | a disconnect removes exactly that player, which no longer blocks anything; the others are unchanged |
| Rules.RequestRespawn | server/game/GameManager.js:90-97 | a respawn request adds or removes no entity and leaves the monsters alone |
| Rules.RequestRespawnEffect | server/game/GameManager.js:90-97 | a respawn request does nothing for a live or unknown player; a dead player comes back alive at full health on (2, 2) with no path; a second request changes nothing |
| Rules.SpawnTypes | server/game/GameManager.js:59-65 | seeding any list of types leaves the players, their order and the grid alone |
| Rules.SpawnMonsters | server/game/GameManager.js:59-65 | seeding the two configured types leaves the players and the grid alone |
| Rules.SpawnTypesInv | server/game/GameManager.js:59-65 | seeding monsters keeps the invariant and leaves the players and the grid alone |
| Rules.SpawnMonstersEffect | server/game/GameManager.js:59-65 | seeding an empty table gives exactly `orc_1` at (15, 4) with 70 health and `cyclops_2` at (30, 18) with 150, in that order |
| Rules.RequestTarget | server/game/GameManager.js:105-112 | a target request adds or removes no entity and never touches a monster; when no `updateTarget` is sent, nothing changes |
| Rules.RequestTargetEffect | server/game/GameManager.js:105-112 | the target is set, and `updateTarget` sent, exactly when the player exists and the entity under the id (a monster looked up first) is alive; otherwise nothing changes |
| Rules.FindType | server/game/GameManager.js:141 | the type found is one whose prefix occurs in the id; when none is found, no prefix occurs |
| Rules.RequestAttack | server/game/GameManager.js:114-151 | an attack request adds or removes no entity, even after a kill (the monster stays, dead, until its respawn) |
| Rules.HitTarget | server/game/GameManager.js:125-139 | the blow adds or removes no entity |
| Rules.RespawnPoint | server/game/GameManager.js:141-142 | a respawn point exists exactly when some configured type's prefix occurs in the id, and it is that type's spawn point |
| Rules.RequestAttackGuard | server/game/GameManager.js:115-116 | a missing or dead player, or one without a target, changes nothing |
| Rules.RequestAttackLostTarget | server/game/GameManager.js:118-123 | a target that is not a live monster is cleared, and nothing else changes |
| Rules.RequestAttackTooFar | server/game/GameManager.js:125-126 | a live monster more than 1.5 tiles away is not hit, and nothing changes |
| Rules.RequestAttackHit | server/game/GameManager.js:128-139 | a monster in range loses 10 health, clamped at 0, and dies exactly when its health was at most 10; a kill gives the player the monster's experience and clears its target; otherwise the players are unchanged |
| Rules.RequestAttackInv | server/game/GameManager.js:114-151 | an attack request keeps the table invariant |
| Rules.KilledOrcRespawnsAtSpawn | server/game/GameManager.js:141-145 | a killed orc is scheduled to come back at (15, 4) |
| Rules.RespawnMonster | server/game/GameManager.js:143-147 | the timer callback adds or removes no entity and leaves the players alone |
| Rules.RespawnMonsterEffect | server/game/GameManager.js:143-146 | the timed respawn revives the monster at full health on the given tile with no path; its state, target and attack time are kept |
| Rules.RequestMove | server/game/GameManager.js:153-175 | a move request adds or removes no entity and never touches a monster |
| Rules.TryStep | server/game/GameManager.js:161-174 | the step adds or removes no entity and never touches a monster |
| Rules.RequestMoveIgnored | server/game/GameManager.js:154-155 | a missing or dead player's move request does nothing |
| Rules.RequestMoveTooSoon | server/game/GameManager.js:156-160 | before `lastMoveTime + speed` the request is rejected and nothing changes |
| Rules.RequestMoveSteps | server/game/GameManager.js:161-167 | past the guards, a move request is the step onto the tile the decoded direction gives |
| Rules.BlockedIgnoresPathAndTime | server/game/GameManager.js:161-168 | writing the move time and dropping the path, as the handler does before its occupancy test, cannot change the test's answer |
| Rules.RequestMoveStep | server/game/GameManager.js:161-174 | past the cooldown the move time is `now` and the path is dropped even on a rejection; the step is accepted exactly when the destination is not blocked and then moves the tile by the decoded step with derived pixels; only that player changes |
| Rules.RequestMoveInv | server/game/GameManager.js:153-175 | a move request keeps the table invariant |
| Rules.UnknownDirectionRejected | server/game/GameManager.js:163-168 | a direction naming no keyword is always rejected, because the player blocks its own tile |
| Rules.MoveCooldown | server/game/GameManager.js:156-161 | after a request passes the cooldown at `t1`, every request before `t1 + speed` is rejected and changes nothing |
| Rules.AcceptedMoveIsOneStep | server/game/GameManager.js:163-169 | an accepted move changes each coordinate by at most one |
| Rules.RequestPath | server/game/GameManager.js:177-195 | a path request is the player's own, starts on its tile and goes to the requested tile |
| Rules.RequestPathEffect | server/game/GameManager.js:177-187 | a path request is issued exactly for a live player without a path; it runs from the player's tile to the target and avoids exactly the tiles of the other live entities |
| Rules.StorePlayerPath | server/game/GameManager.js:187-193 | the path callback adds or removes no entity and never touches a monster |
| Rules.StorePlayerPathEffect | server/game/GameManager.js:187-193 | a path of two tiles or more is stored without its start and is never empty; no path, or one of a single tile, stores nothing |
| Movement.StepEntity | server/game/GameManager.js:201-219 | one entity's turn adds or removes no entity |
| Movement.Halt | server/game/GameManager.js:203-208 | stopping at a blocked waypoint adds or removes no entity |
| Movement.Advance | server/game/GameManager.js:210-218 | moving onto a free waypoint adds or removes no entity |
| Movement.ClosePath | server/game/GameManager.js:215-218 | closing a used-up path adds or removes no entity |
| Movement.MoveAll | server/game/GameManager.js:199-220 | the turns of any list of entities add or remove no entity |
| Movement.ExecuteMovement | server/game/GameManager.js:197-221 | the movement phase adds or removes no entity and keeps the table invariant |
| Movement.StepSkips | server/game/GameManager.js:201-202 | a dead or idle entity, or one still cooling down, is skipped and nothing changes |
| Movement.StepBlocked | server/game/GameManager.js:203-209 | a blocked next waypoint: the move time is recorded, the path dropped, the entity stays, a monster goes back to patrolling, no event |
| Movement.BlockedIgnoresTime | server/game/GameManager.js:203-205 | writing the move time before the occupancy test cannot change its answer |
| Movement.StepAdvances | server/game/GameManager.js:210-218 | a free next waypoint: the entity moves onto it with derived pixels and consumes exactly that waypoint; `pathComplete` holds exactly when it was the last one, and then the path becomes `null` and a returning monster patrols |
| Movement.StepFrame | server/game/GameManager.js:200-220 | one entity's step leaves every other entity's record unchanged |
| Movement.StepInv | server/game/GameManager.js:200-220 | a step keeps the table invariant |
| Movement.MoveAllAtMostOne | server/game/GameManager.js:199-221 | over a phase each entity consumes at most one waypoint, and an entity not visited keeps its record |
| Movement.MoveAllInv | server/game/GameManager.js:199-221 | the phase keeps the table invariant |
| Movement.ExecuteMovementEffect | server/game/GameManager.js:197-221 | the movement phase keeps the invariant and moves every entity by at most one waypoint of its path |
| MonsterAI.ClosestPlayer | server/game/GameManager.js:230-241 | the closest player found is a live player of the table |
| MonsterAI.Closest | server/game/GameManager.js:230-241 | the player chosen is one of those searched, and alive |
| MonsterAI.ClosestSpec | server/game/GameManager.js:230-241 | nothing is found exactly when no searched player is alive; otherwise the choice is at minimal distance and every live player searched before it is strictly farther |
| MonsterAI.ClosestPlayerSpec | server/game/GameManager.js:230-241 | the same over the whole players table in insertion order |
| MonsterAI.Retarget | server/game/GameManager.js:245-257 | the state switch changes neither the monster's body, nor its spawn point, nor its attack time |
| MonsterAI.Switched | server/game/GameManager.js:245-257 | the monster record after the switch keeps its body |
| MonsterAI.PatrolTarget | server/game/GameManager.js:262-265 | the patrol destination lies inside the map and, for draws in 0..4 from a spawn point inside the map, within two tiles of it on each axis |
| MonsterAI.RetargetEffect | server/game/GameManager.js:245-257 | the monster chases the closest player exactly when it is in detection range; a chaser that lost it returns home without a target; any other monster is unchanged |
| MonsterAI.Strike | server/game/GameManager.js:280-289 | the attack adds or removes no entity |
| MonsterAI.Engage | server/game/GameManager.js:276-308 | the `chasing` branch adds or removes no entity |
| MonsterAI.Dispatch | server/game/GameManager.js:259-321 | the `switch` on the state adds or removes no entity |
| MonsterAI.MonsterTurn | server/game/GameManager.js:226-323 | one monster's turn adds or removes no entity |
| MonsterAI.TurnAll | server/game/GameManager.js:226-324 | the turns of any list of monsters add or remove no entity and keep the table invariant |
| MonsterAI.UpdateMonsterAI | server/game/GameManager.js:223-325 | the AI phase adds or removes no entity and keeps the table invariant |
| MonsterAI.TurnIdle | server/game/GameManager.js:227-243 | a dead monster, one walking a path, or one with no live player to see does nothing |
| MonsterAI.TurnOutOfRange | server/game/GameManager.js:245-320 | out of detection range: a patroller asks for a path to a tile within two of its spawn point and inside the map; a chaser gives up and, like a returning monster, asks for the way home |
| MonsterAI.TurnAttack | server/game/GameManager.js:276-290 | in attack range with the cooldown strictly elapsed, the player loses the monster's damage and the events are sent; a kill sends the monster home; otherwise it only chases |
| MonsterAI.TurnPursue | server/game/GameManager.js:291-306 | in detection range but out of attack range, the monster asks for a path to the player's tile that avoids every other live entity except itself and the target |
| MonsterAI.TurnAttackRule | server/game/GameManager.js:276-290 | a player's record changes only when it is the closest live player, within both ranges, with the cooldown elapsed, and then only by the damage |
| MonsterAI.TurnKeepsMonsters | server/game/GameManager.js:226-323 | a turn moves no monster and touches no other monster's record |
| MonsterAI.TurnInv | server/game/GameManager.js:226-323 | a turn keeps the table invariant |
| MonsterAI.StrikeSteps | server/game/GameManager.js:280-289 | the attack is the sequence: attack time, damage, then the way home after a kill |
| MonsterAI.TurnAllRequests | server/game/GameManager.js:223-325 | over a phase each monster issues at most one path request, and only for itself |
| MonsterAI.TurnHealthOnly | server/game/GameManager.js:226-323 | in a turn a player's record changes only in its health, which never rises |
| MonsterAI.TurnAllFrame | server/game/GameManager.js:223-325 | the AI phase moves nobody; players change only in health, which never rises |
| MonsterAI.MonsterTurnRequester | server/game/GameManager.js:267-311 | a monster's path request is its own and starts on its tile |
| MonsterAI.OnPatrolPath | server/game/GameManager.js:267-272 | the patrol callback adds or removes no entity and leaves the players alone |
| MonsterAI.OnChasePath | server/game/GameManager.js:298-304 | the chase callback adds or removes no entity and leaves the players alone |
| MonsterAI.OnReturnPath | server/game/GameManager.js:311-318 | the return callback adds or removes no entity and leaves the players alone |
| MonsterAI.OnPatrolPathEffect | server/game/GameManager.js:267-272 | a patrol path of two tiles or more is stored without its start; anything else changes nothing |
| MonsterAI.OnChasePathEffect | server/game/GameManager.js:298-304 | a chase path is stored without its first and last tile exactly when something is left |
| MonsterAI.OnReturnPathEffect | server/game/GameManager.js:311-318 | a return path is stored without its start; an empty or one-tile path makes the monster patrol; no path changes nothing |
| Entities.Entity.constructor | server/game/entities/Entity.js:3-17 | the new object holds `NewBody` |
| Entities.Entity.Respawn | server/game/entities/Entity.js:19-26 | the object's new state is `Respawn` of its old state |
| Entities.Entity.IsAlive | server/game/entities/Entity.js:28-30 | true exactly when health is positive |
| Entities.Entity.TakeDamage | server/game/entities/Entity.js:32-37 | the object's new state is `TakeDamage` of its old state |
| Entities.Entity.MoveTo | server/game/GameManager.js:211-212 | the object's new state is `MoveTo` of its old state |
| Entities.Player.constructor | server/game/entities/Player.js:5-14 | the new object holds `NewPlayer` |
| Entities.Player.GainExperience | server/game/entities/Player.js:16-20 | the object's new state is `GainExperience` of its old state |
| Entities.Player.Snapshot | server/game/entities/Entity.js:40-55 | the player's snapshot |
| Entities.Monster.constructor | server/game/entities/Monster.js:5-26 | the new object holds `NewMonster` |
| Entities.Monster.Snapshot | server/game/entities/Entity.js:40-55 | the monster's snapshot |
| Game.GameManager.constructor | server/game/GameManager.js:7-23 | both tables start empty |
| Game.GameManager.IsTileBlocked | server/game/GameManager.js:37-48 | the loops answer exactly `Blocked` of the current state |
| Game.GameManager.PlayerSnapshotTable | server/game/GameManager.js:67-73 | the snapshot of every player |
| Game.GameManager.MonsterSnapshotTable | server/game/GameManager.js:67-73 | the snapshot of every monster |
| Game.SnapshotPlayers | server/game/GameManager.js:67-73 | the loop over the insertion order gives the snapshot of exactly every key of the players table |
| Game.SnapshotMonsters | server/game/GameManager.js:67-73 | the loop over the insertion order gives the snapshot of exactly every key of the monsters table |
| Game.GameManager.HandleConnection | server/game/GameManager.js:75-78 | the new state is `Connect` of the old one, and the class invariant holds |
| Game.GameManager.PutPlayer | server/game/GameManager.js:76-78 | the new state has a fresh player with that key on the spawn point; the other entries are unchanged |
| Game.GameManager.Welcome | server/game/GameManager.js:80-83 | both snapshot tables, and the newcomer's snapshot taken from them |
| Game.GameManager.HandleDisconnect | server/game/GameManager.js:85-88 | the new state is `Disconnect` of the old one |
| Game.GameManager.HandleRequestRespawn | server/game/GameManager.js:90-97 | the new state is `RequestRespawn` of the old one; `entityRespawned` is sent exactly for a dead player |
| Game.GameManager.HandleRequestTarget | server/game/GameManager.js:105-112 | state and answer are `RequestTarget` of the old state |
| Game.GameManager.SpawnMonsters | server/game/GameManager.js:59-65 | the loop over the types gives `SpawnMonsters` of the old state |
| Game.GameManager.SpawnEach | server/game/GameManager.js:60-64 | the `forEach` over any list of types gives `SpawnTypes` of the old state and keeps the class invariant |
| Game.GameManager.RespawnMonster | server/game/GameManager.js:143-147 | the new state is `RespawnMonster` of the old one, and the snapshot is that of the revived monster |
| Game.GameManager.HandleRequestAttack | server/game/GameManager.js:114-151 | state and outcome are `RequestAttack` of the old state |
| Game.GameManager.HitTarget | server/game/GameManager.js:125-139 | state and outcome are `HitTarget` of the old state |
| Game.GameManager.HandleRequestMove | server/game/GameManager.js:153-175 | state and outcome are `RequestMove` of the old state |
| Game.GameManager.TryStep | server/game/GameManager.js:161-174 | state and outcome are `TryStep` of the old state |
| Game.GameManager.SpreadEntities | server/game/GameManager.js:180 | the loops list the entities in the order of `SpreadOrder` |
| Game.SpreadPlayerRefs | server/game/GameManager.js:180 | the loop lists the players in the order of `SpreadPlayers` |
| Game.SpreadMonsterRefs | server/game/GameManager.js:180 | the loop lists the monsters no player key shadows, in the order of `SpreadMonsters` |
| Game.GameManager.AvoidList | server/game/GameManager.js:181-186 | the loop collects exactly `AvoidTiles` |
| Game.GameManager.HandleRequestPath | server/game/GameManager.js:177-195 | the path request is `RequestPath` of the current state |
| Game.GameManager.StorePlayerPath | server/game/GameManager.js:187-193 | the new state is `StorePlayerPath` of the old one |
| Game.GameManager.Halt | server/game/GameManager.js:205-208 | the new state is `Movement.Halt` of the old one |
| Game.GameManager.Advance | server/game/GameManager.js:210-218 | state and event are `Movement.Advance` of the old state |
| Game.GameManager.EntityOf | server/game/GameManager.js:199-200 | the object an entry of `{...players, ...monsters}` refers to holds exactly that entry's record |
| Game.GameManager.Shift | server/game/GameManager.js:210-213 | the move time is written, the waypoint shifted off and moved onto; the result says whether the path is used up |
| Game.GameManager.ClosePath | server/game/GameManager.js:215-218 | the new state is `Movement.ClosePath` of the old one |
| Game.GameManager.StepEntity | server/game/GameManager.js:200-220 | state and event are `Movement.StepEntity` of the old state |
| Game.GameManager.ExecuteMovement | server/game/GameManager.js:197-221 | the loop's state and events are `Movement.ExecuteMovement` of the old state |
| Game.GameManager.FindClosestPlayer | server/game/GameManager.js:230-241 | the loop finds `ClosestPlayer` of the current state |
| Game.GameManager.Switch | server/game/GameManager.js:245-257 | the monster's record becomes `Switched` |
| Game.GameManager.Strike | server/game/GameManager.js:280-289 | state and events are `MonsterAI.Strike` of the old state |
| Game.GameManager.Engage | server/game/GameManager.js:276-307 | state, request and events are `MonsterAI.Engage` of the old state |
| Game.GameManager.Dispatch | server/game/GameManager.js:259-321 | state, request and events are `MonsterAI.Dispatch` of the old state |
| Game.GameManager.MonsterTurn | server/game/GameManager.js:226-323 | state, request and events are `MonsterAI.MonsterTurn` of the old state |
| Game.GameManager.UpdateMonsterAI | server/game/GameManager.js:223-325 | the loop's state, requests and events are `MonsterAI.UpdateMonsterAI` of the old state |
| Game.GameManager.OnPatrolPath | server/game/GameManager.js:267-272 | the new state is `MonsterAI.OnPatrolPath` of the old one |
| Game.GameManager.OnChasePath | server/game/GameManager.js:298-304 | the new state is `MonsterAI.OnChasePath` of the old one |
| Game.GameManager.OnReturnPath | server/game/GameManager.js:311-318 | the new state is `MonsterAI.OnReturnPath` of the old one |
| Game.GameManager.SetMoveTime | server/game/GameManager.js:203 | `entity.lastMoveTime = now` changes only that entity's move time |
| Game.GameManager.SetPath | server/game/GameManager.js:206 | `entity.movePath = ...` changes only that entity's path |
| Game.GameManager.MoveEntity | server/game/GameManager.js:211-212 | the tile and pixel writes change only that entity, as `MoveTo` |
| Game.GameManager.Damage | server/game/GameManager.js:282 | `takeDamage` changes only that entity, as `TakeDamage` |
| Game.GameManager.SetState | server/game/GameManager.js:207 | `monster.state = ...` changes only that monster's state |
| Game.GameManager.GiveUp | server/game/GameManager.js:287-288 | the monster returns home without a target; nothing else changes |
| Game.GameManager.SetAttackTime | server/game/GameManager.js:281 | `monster.lastAttackTime = now` changes only that monster's attack time |
| Game.GameManager.PutMonster | server/game/GameManager.js:63 | a fresh monster of the type on its spawn point, under its key; the others are kept |
| Game.GameManager.SnapshotOf | server/game/GameManager.js:214 | `entity.getSnapshot()` is the snapshot of the entity's record |
| Game.GameManager.MoveNext | server/game/GameManager.js:200-219 | one more turn of the loop extends the state and events of `MoveAll` by one entity |
| Game.GameManager.TurnNext | server/game/GameManager.js:226-323 | one more turn of the loop extends the state, requests and events of `TurnAll` by one monster |
| Game.GameManager.Setup | server/game/GameManager.js:25-28 | setup seeds the monsters |
| Game.GameManager.Tick | server/game/GameManager.js:30-35 | one interval firing is the movement phase followed by the AI phase on its result |
| Game.OrderCovers | server/game/GameManager.js:39-46 | the loops over the insertion orders visit every entry of the tables |
| Legacy.BlockedCases | server/server.js:27-38 | a missing row, a wall, or any player (alive or not) blocks; with none of these, the tile is free, even a column outside its row |
| Legacy.OffRowDiffers | server/server.js:28 | a column outside an existing row is free for the legacy test but blocked for the newer one |
| Legacy.Connect | server/server.js:49-57 | a connection adds exactly the socket id to the keys and keeps the map |
| Legacy.Disconnect | server/server.js:70 | a disconnect removes exactly that key and keeps the map |
| Legacy.RequestMove | server/server.js:74-98 | a move request adds or removes no player and keeps the map; anything but a move changes nothing |
| Legacy.StepTo | server/server.js:86-97 | the step happens exactly when the destination is not blocked, and the record broadcast is the one stored, on the destination |
| Legacy.ConnectEffect | server/server.js:46-62 | a connection stores a record on (1, 1) with pixel (48, 48), the socket id and speed 50; the other entries are unchanged |
| Legacy.DisconnectEffect | server/server.js:68-72 | a disconnect removes exactly that record; the others are unchanged |
| Legacy.RequestMoveEffect | server/server.js:74-98 | an unknown socket does nothing; otherwise the step is accepted exactly when the destination is not blocked, and only the tile and pixels of that record change; there is no cooldown |
| Legacy.MapWalled | server/server.js:9-22 | every row of the legacy map has 20 cells and a wall at both ends, and there are 12 rows |
| Legacy.FreeStepIsFloor | server/server.js:86-93 | a step the legacy test lets through, taken from a floor tile, lands on a floor tile |
| Legacy.RequestMoveIsStep | server/server.js:74-85 | for a known socket, a move request is a step of at most one tile per axis |
| Legacy.StepKeepsFloor | server/server.js:86-93 | a step of at most one tile per axis, taken from a floor table, leaves every player on a floor tile |
| Legacy.ConnectKeepsFloor | server/server.js:49-57 | the start tile (1, 1) is floor, so a connection keeps every player on a floor tile |
| Legacy.DisconnectKeepsFloor | server/server.js:70 | a disconnect keeps every remaining player on a floor tile |
| Legacy.MoveKeepsFloor | server/server.js:74-98 | a move request keeps every player on a floor tile |
| Legacy.HandlersKeepFloor | server/server.js:46-98 | connect, disconnect and move keep every player on a floor tile of the legacy map |
| Legacy.LegacyServer.constructor | server/server.js:9-25 | the legacy map and an empty table |
| Legacy.LegacyServer.IsTileBlocked | server/server.js:27-38 | the loop answers exactly `Blocked` of the current table |
| Legacy.LegacyServer.HandleConnection | server/server.js:46-66 | the new table is `Connect` of the old one; the table sent and the newcomer's record |
| Legacy.LegacyServer.HandleDisconnect | server/server.js:68-72 | the new table is `Disconnect` of the old one |
| Legacy.LegacyServer.HandleRequestMove | server/server.js:74-98 | table and answer are `RequestMove` of the old table |

Notes on the code as written:

- `handleRequestMove` writes `lastMoveTime` and clears `movePath` before its occupancy test. Likewise `executeMovement` writes `lastMoveTime` before its test. The class makes each test first. `Rules.BlockedIgnoresPathAndTime` and `Movement.BlockedIgnoresTime` prove that this order gives the same answer.
- Players always spawn on (2, 2), even when another player stands there. `findEmptyTile` exists but is never called. Players may therefore overlap.
- When no player is alive, a monster does nothing at all. It does not patrol either (`MonsterAI.TurnIdle`).
- The patrol branch reads `map[0].length`. It cannot run on an empty map, so the AI phase requires a non-empty grid.
- The legacy `isTileBlocked` does not test `map[y][x] === undefined`. A column outside an existing row is therefore free there. On the legacy map this gap is unreachable: every row is walled at both ends (`Legacy.HandlersKeepFloor`).
- A dead player still has a record in the tables. Dead entities never block (`GameState.BlockedIff`).

## Left out

- Socket transport, `io.emit`, `socket.emit` and `console.log`. The messages a handler sends are returned as values: outcomes, snapshots and event lists.
- The `setInterval` of `startGameLoop` and the `setTimeout` of a monster's respawn. `Tick` is one interval firing. `RespawnMonster` is the timer's callback, invoked from outside with the spawn point computed by `Rules.RespawnPoint`. Whether the monster is still dead when the timer fires is not checked, because the source does not check it either.
- The easystar path finder. Its grid, its diagonal setting and its avoided-point state are left out. A `findPath` call is modelled as a `PathRequest` value: from, to, and the avoided tiles in call order. Its answer is given to the callback methods. Whether a path found is valid on the grid is not modelled.
- Captured objects in the path callbacks. The callbacks address the monster or player by key, where the source captures the object. After a disconnect the source's callback would write to a detached object; the model writes nothing.
- `findEmptyTile`: it is never called, and it loops on random draws.
- The `lootTable` of a monster. It does not influence any behaviour modelled here. A monster keeps its type's `color` and sends it in its snapshot.
- EntityModel.PlayerSnapshot: a player's random colour (Player.js:10) is not modelled, so its snapshot carries no colour where the source sends that random string.
- Rules.RequestTarget, Rules.RequestMove, Rules.RequestPath, Grid.DecodeDirection and Legacy.RequestMove: client payloads are taken as well typed (`direction` a string, `targetTile` a tile, `targetId` a string). The tables are Dafny maps, which have no inherited keys. On a non-string `direction` (`includes` throws at GameManager.js:164 and server.js:81) and on a missing `targetTile` (`targetTile.x` throws at GameManager.js:187, after the avoided points were added), the source throws inside the socket handler. It also throws on a `targetId` naming an inherited `Object.prototype` member such as `constructor`, whose `isAlive` is not a function (GameManager.js:107-108). The model does not capture these throws: it returns the no-change outcome for an unknown key.
- `Math.sqrt` on floating point: distances are compared as squared integers against `range * range` on reals. This is exact for these integer inputs.
- An absent `detectionRange` or `speed` of a monster type (`undefined` in JavaScript). Both configured types set them, so they are modelled as present.
- JavaScript's ordering of integer-like keys before other keys. Iteration order is insertion order; the ids used here (socket ids, `orc_1`, `cyclops_2`) are not integer-like.
- The moment inside `executeMovement` when a path shifted to empty is still stored. It is replaced by `null` before anything reads it.
- Legacy: the colour string is an input. The record is stored as a value in the table, so the source's in-place update of the record becomes a replacement of the entry.
- Integer widths: coordinates, health and times are unbounded integers. JavaScript numbers are doubles, but the values here stay far below 2^53.
