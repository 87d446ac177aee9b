# Rasa.NET game-server managers in Dafny

This project models four managers of the Rasa.NET map-channel server as pure functions over immutable data. Each manager's `SendPacket` or `CallMethod` becomes one abstract `Message` in a trace. A message names the receiving client connection, the entity the call is addressed to, and the packet kind. Payload encoding is not modelled.

- **Player manager**
  - `skill_tables.dfy`: the skill-id and skill-index tables and the skill-level cost table.
  - `advancement.dfy`: the attribute-point and skill-point budgets, and the all-or-nothing `LevelSkills` request.
  - `stats.dfy`: the integer stat formulas of `UpdateStatsValues`.
  - `ability_drawer.dfy`: ability-drawer set and swap.
  - `roster.dfy`: the four loops that decide which client hears about which player entity when a client enters or leaves a map channel.
- **Game-effect manager** (`game_effects.dfy`): the effect chain of an actor (newest first), sprint attachment with per-channel effect ids, and the movement modifier. The modifier is kept in integer tenths.
- **Creature manager** (`creatures.dfy`):
  - creature-type loading;
  - creature instantiation from a template;
  - the create packet sent to clients;
  - the two introduction loops;
  - the conversation-status fallback chain;
  - the script-line scan inside that status update.
- **Character manager** (`characters.dfy`): the LoggedIn to CharacterSelection transition with its 16 selection pods, the name suggestions with their fixed fallbacks, and the result of a creation request.

`wrappers.dfy` holds `Option`, `Result` and `Outcome`. `messages.dfy` holds the message trace vocabulary.

Some behaviours are kept exactly as the code has them:
- `CellDiscardClientToPlayers` sends the destroy of the leaving actor to the leaving client itself, and frees its entity id once per peer.
- `CellIntroduceClientToPlayers` checks for self only after the sends, so a client in the list is told about itself.
- In `UpdateConversationStatus` the `Collector` test is nested inside the `CompleteObjective` branch and can never fire. `Creatures.CollectorUnreachable` proves this.
- The comment above `UpdateStatsValues` says it does not send values to clients. The code sends the attribute-info packet at the end, and the model follows the code.

## Model

| member | source | states |
|---|---|---|
| SkillTables.GetSkillIndexById | src/Rasa.Game/Managers/PlayerManager.cs:246-249 | Ids below 0 or from 200 on give -1 instead of faulting. Any other result is -1 or an index in 0..72 whose table skill id is the input again. |
| SkillTables.SkillIndexRoundTrip | src/Rasa.Game/Managers/PlayerManager.cs:43-67 | For every index 0..72, the skill id is below 200 and looking it up gives the index back. |
| SkillTables.SkillTablesAreInverse | src/Rasa.Game/Managers/PlayerManager.cs:43-67 | A skill id has an index exactly when it appears in the index-to-id table. |
| SkillTables.RequiredPointsAreTriangular | src/Rasa.Game/Managers/PlayerManager.cs:78 | The cost of level l in [0,1,3,6,10,15] is l(l+1)/2. |
| SkillTables.RequiredPointsMonotone | src/Rasa.Game/Managers/PlayerManager.cs:78 | The cost table strictly increases, so a level-up never refunds points. |
| Advancement.GetAvailableAttributePoints | src/Rasa.Game/Managers/PlayerManager.cs:236-244 | The result is never negative. It is 0 exactly when the points spent reach 2(level-1); otherwise the result plus the points spent equals 2(level-1). |
| Advancement.SkillLevelCost | src/Rasa.Game/Managers/PlayerManager.cs:257-261 | A skill level outside 0..5 costs nothing. Inside that range it costs the triangular number of the level. |
| Advancement.SkillPointsAvailable | src/Rasa.Game/Managers/PlayerManager.cs:251-264 | The result is never negative. It is 0 exactly when the skill cost reaches (level-1)*2+5; otherwise the result plus the cost equals that budget. |
| Advancement.GetSkillPointsAvailable | src/Rasa.Game/Managers/PlayerManager.cs:251-264 | The loop over the skill dictionary computes the clamped budget-minus-cost value, and it is never negative. |
| Advancement.LevelSkills | src/Rasa.Game/Managers/PlayerManager.cs:266-303 | The request passes exactly when every entry names a held skill other than -1, no level is lowered or above 5, no skill repeats and the extra cost fits the points. On failure the player is unchanged and nothing is sent. On success only the skills change, each skill ends at its requested level (others unchanged), and three packets go to the player's client, addressed to its actor: skills, abilities, and the allocation points carrying the attribute points and the skill points left after the update. |
| Advancement.ValidateAcceptsExactly | src/Rasa.Game/Managers/PlayerManager.cs:271-285 | The validation loop succeeds exactly on valid, duplicate-free requests. |
| Advancement.ValidatePlansRequestedUps | src/Rasa.Game/Managers/PlayerManager.cs:280-284 | A successful validation subtracts the total extra cost and plans the level increases new-old in request order. |
| Advancement.LevelOfAddLevel | src/Rasa.Game/Managers/PlayerManager.cs:292 | `Skills[id].SkillLevel += delta` changes the level of that skill only. |
| Advancement.ApplyRequestedUps | src/Rasa.Game/Managers/PlayerManager.cs:291-292 | Applying a valid plan to a table that agrees on the requested skills sets each requested skill to its requested level and no other. |
| Advancement.LevelSkillsSetsRequestedLevels | src/Rasa.Game/Managers/PlayerManager.cs:291-292 | The update loop leaves every requested skill at exactly its requested level. |
| Advancement.SpentAfterAddLevel | src/Rasa.Game/Managers/PlayerManager.cs:292 | Raising one held skill changes the spent skill cost by the difference of its two level costs. |
| Advancement.SpentAfterRequestedUps | src/Rasa.Game/Managers/PlayerManager.cs:291-292 | Applying the plan adds exactly the request's extra cost to the spent skill points. |
| Advancement.ExtraCostNonNegative | src/Rasa.Game/Managers/PlayerManager.cs:282-283 | A valid request never refunds points. |
| Advancement.LevelSkillsSpendsExactly | src/Rasa.Game/Managers/PlayerManager.cs:296-302 | After a successful request, the available skill points are the old ones minus the extra cost, and the allocation-point packet reports that value. |
| Stats.Primary | src/Rasa.Game/Managers/PlayerManager.cs:498-512 | Body, mind and spirit: the normal max is the computed value, and current and current max equal it. |
| Stats.Pool | src/Rasa.Game/Managers/PlayerManager.cs:513-525 | Health, chi and power: current never exceeds the new max. A full reset refills it. Otherwise it keeps its old value or drops to the max, and never rises. |
| Stats.UpdateStatsValues | src/Rasa.Game/Managers/PlayerManager.cs:493-573 | The seven normal maxima follow the level and spent-point formulas, including regen's 6 per spirit point above 10. Body, mind and spirit are refilled to their max. Health, chi and power follow `Stats.Pool` on their old values: refilled on a full reset, otherwise min(old current, new max). Regen's current max is its normal max, and its current value is untouched. One attribute-info packet is sent. |
| Stats.RecomputeIsIdempotent | src/Rasa.Game/Managers/PlayerManager.cs:519-571 | A second non-reset recomputation with no change in between changes nothing. |
| Stats.RecomputeKeepsPoolsConsistent | src/Rasa.Game/Managers/PlayerManager.cs:498-571 | For a level of at least 1 and non-negative inputs, body, mind, spirit, health, chi and power satisfy 0 <= current <= current max. Regen is not clamped by the source and is not covered. |
| Stats.LevelUpRaisesMaxima | src/Rasa.Game/Managers/PlayerManager.cs:498-529 | One more level raises body, mind and spirit maxima by 2, health by 16, chi and power by 8, and regen by 14. |
| Stats.AttributeBudgetMatchesMaxima | src/Rasa.Game/Managers/PlayerManager.cs:498-512 | While attribute points remain, the body, mind and spirit maxima together fall short of 30+8(level-1) by exactly the unspent points. |
| AbilityDrawer.RequestSetAbilitySlot | src/Rasa.Game/Managers/PlayerManager.cs:374-401 | Ability 0 removes the slot; any other id inserts or overwrites it with (slot, ability, level). Other slots are unchanged. One row is written with the packet values and the drawer is sent. |
| AbilityDrawer.RequestSwapAbilitySlots | src/Rasa.Game/Managers/PlayerManager.cs:404-440 | An empty source slot is an error. An empty target gets a copy of the source with the target slot id, and the source is deleted. Otherwise the two entries trade places with their slot-id fields unchanged. Other slots are unchanged and the drawer is sent. Two rows are written, target first: after a move they are (target, ability, level) and (source, 0, 0); after a swap each row carries its entry's old slot id. |
| AbilityDrawer.SetThenClear | src/Rasa.Game/Managers/PlayerManager.cs:377-397 | Clearing a slot right after setting it leaves the rest of the drawer as before. |
| AbilityDrawer.SetKeepsWellFormed | src/Rasa.Game/Managers/PlayerManager.cs:383-400 | Setting a slot keeps every entry's slot id equal to its key, and the written row matches the new contents. |
| AbilityDrawer.SwapTwiceRestores | src/Rasa.Game/Managers/PlayerManager.cs:414-418 | Swapping two occupied slots twice restores the drawer. |
| AbilityDrawer.MoveBackRestores | src/Rasa.Game/Managers/PlayerManager.cs:410-413 | Moving an entry to an empty slot and back restores a well-formed drawer. |
| AbilityDrawer.SwapIsNotPersisted | src/Rasa.Game/Managers/PlayerManager.cs:420-435 | As written, the rows of a two-entry swap leave the table as it was before the swap. |
| AbilityDrawer.SwapIsNotPersistedExample | src/Rasa.Game/Managers/PlayerManager.cs:420-435 | A concrete drawer whose swap the table does not follow. |
| AbilityDrawer.RequestSwapAbilitySlotsFixed | src/Rasa.Game/Managers/PlayerManager.cs:414-418 | The swap with slot ids rewritten shows the player the same contents as the original swap. |
| AbilityDrawer.FixedSwapIsPersisted | src/Rasa.Game/Managers/PlayerManager.cs:420-435 | With slot ids rewritten, the written rows bring the table in line with the new drawer. |
| Roster.CellIntroduceClientToPlayers | src/Rasa.Game/Managers/PlayerManager.cs:144-180 | The trace is one 14-packet block per listed player, the client itself included. Block i goes to the i-th listed player and introduces the client's actor: its create followed by 13 describe packets. |
| Roster.IntroduceToAllBlocks | src/Rasa.Game/Managers/PlayerManager.cs:153-175 | Block i of that trace goes to the i-th listed player and starts with the create. |
| Roster.IntroduceClientCreatesSelf | src/Rasa.Game/Managers/PlayerManager.cs:155-178 | As written, a client in the list receives the create of its own actor. |
| Roster.CellIntroducePlayersToClient | src/Rasa.Game/Managers/PlayerManager.cs:190-226 | The client gets an 11-packet block (a create and 10 describes) for every other listed client, in list order, and its own entry is skipped. The first other entry reached while the client or that entry has no player faults. The blocks sent before it stay sent, and a client without a player in a list with no other entry sends nothing and does not fault. When every entry has a player and actors are distinct, nothing faults and no create names the client's own actor. |
| Roster.IntroducedAtFault | src/Rasa.Game/Managers/PlayerManager.cs:192-198 | When the scan reaches another entry while the client or that entry has no player, the introduced clients are exactly the others before that entry, and at least one other is left unintroduced. |
| Roster.IntroducedAll | src/Rasa.Game/Managers/PlayerManager.cs:192-198 | When no other entry is reached while a player is missing, every other entry is introduced. |
| Roster.IntroduceEachBlocks | src/Rasa.Game/Managers/PlayerManager.cs:192-214 | Block i of that trace introduces the i-th other client to the requesting client. |
| Roster.IntroduceEachCreates | src/Rasa.Game/Managers/PlayerManager.cs:197-198 | Every create in that trace names the actor of one of the introduced clients. |
| Roster.NeverCreatesSelf | src/Rasa.Game/Managers/PlayerManager.cs:194-198 | With distinct actors, every create in the 11-packet trace names an actor other than the client's own. |
| Roster.CellDiscardClientToPlayers | src/Rasa.Game/Managers/PlayerManager.cs:119-129 | For each of the first playerCount entries (none if it is negative) whose player differs, the leaving client is sent its own destroy and the entity id is freed. That is two events per peer, in that order. A leaving client without a player faults exactly when an entry in range has a player, and sends nothing. |
| Roster.CellDiscardPlayersToClient | src/Rasa.Game/Managers/PlayerManager.cs:131-142 | The client gets one destroy per entry among the first playerCount (none if it is negative) that has a player and a different client entity id, in roster order. |
| Roster.RemainingActorsAreOthers | src/Rasa.Game/Managers/PlayerManager.cs:135-139 | Every destroyed actor belongs to such an entry. |
| Roster.DiscardCountsAgree | src/Rasa.Game/Managers/PlayerManager.cs:119-142 | In a roster where each entry has a player and the leaving client occurs once, both discard loops act once per other entry. |
| GameEffects.AddToList | src/Rasa.Game/Managers/GameEffectManager.cs:38-46 | The new effect becomes the head. Its previous link is null and its next link is the old head. The old head's previous link is the new effect. All other links and the order are kept, and the length grows by one. |
| GameEffects.MovementModifierIsFirstSprint | src/Rasa.Game/Managers/GameEffectManager.cs:86-100 | The modifier is 11 + level of the first sprint from the head. |
| GameEffects.MovementModifierWithoutSprint | src/Rasa.Game/Managers/GameEffectManager.cs:86-100 | Without a sprint in the chain the modifier is 10 tenths. |
| GameEffects.UpdateMovementMod | src/Rasa.Game/Managers/GameEffectManager.cs:84-104 | The head-to-tail scan that stops at the first sprint sends the reference modifier to the owning client. |
| GameEffects.AttachSprint | src/Rasa.Game/Managers/GameEffectManager.cs:48-82 | The effect id counter goes up by exactly one and the new value is the effect id. The prepended sprint has type 247, the given level and duration, and timer 0. The attached packet is followed by the modifier 11 + level, whatever older sprints exist. |
| GameEffects.AttachSprintKeepsIdsFresh | src/Rasa.Game/Managers/GameEffectManager.cs:50-64 | If the chain's ids are below the counter and strictly descending, they stay so after an attach and are pairwise distinct. |
| GameEffects.AttachSprintModifierAgrees | src/Rasa.Game/Managers/GameEffectManager.cs:64-96 | The modifier sent by an attach is the one the scan computes on the new chain, and the new sprint is the first one. |
| Creatures.TypeFromRow | src/Rasa.Game/Managers/CreatureManager.cs:185-203 | Loot, NPC and vendor blocks exist exactly when the harvestable, NPC and vendor flags are positive. |
| Creatures.AddRowsKeys | src/Rasa.Game/Managers/CreatureManager.cs:183-206 | Loading rows adds exactly their ids to the loaded ids. |
| Creatures.AddRowsMapsEachRow | src/Rasa.Game/Managers/CreatureManager.cs:183-206 | With fresh ids, each row is loaded as its own type and earlier types are kept. |
| Creatures.CreatureTypesInit | src/Rasa.Game/Managers/CreatureManager.cs:179-210 | The load completes exactly when no id repeats. Otherwise it stops at the first repeated id, keeping the types added before it. |
| Creatures.CreatureAttributesShape | src/Rasa.Game/Managers/CreatureManager.cs:82-94 | The stats table has all ten kinds, each with current = max = normal max. Body, mind, spirit, health and armor take the stats value with (5, 1000). Speed is 1 and the rest are 0. |
| Creatures.CreateCreature | src/Rasa.Game/Managers/CreatureManager.cs:58-100 | An unloaded id gives no creature and changes no spawn pool. Otherwise the template fields are copied onto a fresh actor and the spawn pool is set. The attribute table is full only with a stats row and empty otherwise. A given pool's alive count goes up exactly once. |
| Creatures.CreateCreatureOnClient | src/Rasa.Game/Managers/CreatureManager.cs:102-141 | Nothing is sent for a null creature, and nothing faults. A live creature and a client without a player fault before anything is sent. Otherwise one create goes to the player's connection, with its nine entity-data entries in the fixed order. NPC types then get one vending status with package 106. |
| Creatures.CreatesOfCreateOnClient | src/Rasa.Game/Managers/CreatureManager.cs:105-124 | A creature's introduction holds exactly one create, of its actor on the player's connection. A null creature or a missing player gives none. |
| Creatures.CellIntroduceCreatureToClients | src/Rasa.Game/Managers/CreatureManager.cs:45-49 | Each listed client gets the creature's introduction, in list order, until a client without a player faults. For a live creature, the run faults exactly when some client has no player. The creates are one per client before that point, each of the creature's actor, and one per client when nothing faults. A null creature sends nothing and never faults. |
| Creatures.IntroduceNullCreature | src/Rasa.Game/Managers/CreatureManager.cs:105-106 | A null creature is introduced to any list of clients without a send or a fault. |
| Creatures.IntroduceCreatureToCreates | src/Rasa.Game/Managers/CreatureManager.cs:45-49 | For a live creature, the reference run faults exactly when some client has no player. Its creates are one per client, in list order, up to the first client without one. |
| Creatures.CellIntroduceCreaturesToClient | src/Rasa.Game/Managers/CreatureManager.cs:52-56 | With a player, each live creature is created on the client in list order, and nothing faults. Without one, nothing is sent, and the run faults exactly when some listed creature is non-null. |
| Creatures.IntroduceCreaturesToCreates | src/Rasa.Game/Managers/CreatureManager.cs:52-56 | The reference run holds one create per non-null creature, in list order, when the client has a player. Without one it sends nothing and faults exactly when a creature is live. |
| Creatures.UpdateConversationStatus | src/Rasa.Game/Managers/CreatureManager.cs:343-433 | If the mission scan sent anything, nothing is added. Otherwise a vendor shows its package as available, and failing that the None status is sent with a null list. At least one status is always sent. |
| Creatures.ScanScriptLinesSpec | src/Rasa.Game/Managers/CreatureManager.cs:365-401 | The script-line scan reports ObjectiveComplete exactly when some line completes an objective at this NPC whose slot is not done, and nothing otherwise. |
| Creatures.CollectorUnreachable | src/Rasa.Game/Managers/CreatureManager.cs:369-399 | As written, the scan never reports MissionComplete. |
| Characters.StartCharacterSelection | src/Rasa.Game/Managers/CharacterManager.cs:38-55 | A client that is not logged in is unchanged and gets nothing. A logged-in one gets the begin call with its account id, then 16 pod creates sent to it, of class CharacterSelectionPod, with entity ids 101..116 and pod numbers 1..16, and moves to CharacterSelection. |
| Characters.StartCharacterSelectionTwice | src/Rasa.Game/Managers/CharacterManager.cs:40-54 | A second call after the transition is a no-op. |
| Characters.PodIdsDistinct | src/Rasa.Game/Managers/CharacterManager.cs:45-52 | The 16 pod entity ids are distinct and above the start id 100. |
| Characters.RequestCharacterName | src/Rasa.Game/Managers/CharacterManager.cs:57-63 | Gender 0 uses the male first-name table with fallback "Richard". Any other gender uses the female one with fallback "Rachel". |
| Characters.CharacterNameReadsOneEntry | src/Rasa.Game/Managers/CharacterManager.cs:57-63 | The reply depends only on the one table entry the gender selects: tables that agree there give the same call. |
| Characters.RequestFamilyName | src/Rasa.Game/Managers/CharacterManager.cs:65-71 | The neutral last-name table is used, with fallback "Garriott". |
| Characters.FamilyNameReadsOneEntry | src/Rasa.Game/Managers/CharacterManager.cs:65-71 | The reply depends only on the neutral last-name entry. |
| Characters.RequestCreateCharacterInSlot | src/Rasa.Game/Managers/CharacterManager.cs:73-95 | Exactly one call is sent. A failed name check gives a failure carrying that result. A passed check gives a success carrying the slot and family name. |
| Characters.CreateReplyDependsOnRequestOnlyOnSuccess | src/Rasa.Game/Managers/CharacterManager.cs:73-95 | A failed check is reported the same way whatever the request. Two passed requests get the same reply exactly when they are the same request. |

## Left out

- Singleton construction and its locks are concurrency plumbing with no game logic.
- Packet payloads, their encoding and the transport are out of scope. A send is one abstract message.
- Database tables are not modelled: the character skill, ability-drawer and appearance tables, and the creature, creature-type and creature-stats tables. Their rows are inputs, or outputs as the rows written. So are the entity registry, the spawn-pool manager, the mission manager and the random-name table. The two discard loops record `FreeEntity` as an event.
- `RequestNpcConverse` only sends hard-coded test data.
- The pure packet emitters and stubs are not modelled: `AssignPlayer`, `ChangeTitle`, `UpdateAppearance`, `RequestArmWeapon`, `RequestArmAbility`, `RequestPerformAbility`, `RequestVisualCombatMode`, `SetAppearanceItem`, `RemoveAppearanceItem`, `RemovePlayerCharacter`, the auto-fire and crouch stubs, and logging.
- The `SkillIdx2AbilityID` table is not read by any modelled operation.
- Stats.UpdateStatsValues: the armor block (lines 533-562) is floating point and is not modelled. `Regen.RefreshAmount` (line 532) has a type that is not shown, so it is not modelled either.
- GameEffects.UpdateMovementMod: the modifier is sent as a double in the source. Here it is exact integer tenths, without rounding.
- GameEffects.AttachSprint: the effect id counter is an unbounded integer, and 32-bit wrap-around is not modelled.
- GameEffects.AddToList: acyclicity and node freshness hold by construction, because the chain is a sequence rather than linked heap nodes.
- Advancement.LevelSkills: the database writes after the update (lines 304-306) are not modelled. The skill dictionary's unique keys are a precondition. Packet lists whose `ListLenght` disagrees with the array lengths are not modelled; a request is one list of pairs.
- Roster.CellDiscardClientToPlayers: requires `playerCount <= |roster|`. A larger count indexes past the end of the player list, whose class is not part of this model. A null leaving player is modelled, as the `fault` result.
- Roster.CellDiscardPlayersToClient: requires `playerCount <= |roster|`, for the same reason.
- Roster: the source compares `MapChannelClient` and `Player` objects by reference (PlayerManager.cs lines 123 and 195). The model compares them by value. A player carries its actor and client, and a map-channel client its client entity id, so distinct objects with identical fields are not distinguished.
- Roster.CellIntroduceClientToPlayers: requires the introduced client and every listed client to have a player, because the source dereferences `mapClient.Player` before the loop and each listed player inside it. The null-reference faults on those paths are not modelled.
- Creatures.UpdateConversationStatus: the mission scan (lines 348-416) is abstracted to the statuses it sent. It dereferences possibly-null mission entries, and its data come from the mission manager. The function requires an NPC type, because the source dereferences `NpcData` unconditionally. The inner script-line scan is modelled separately as `Creatures.ScanScriptLines`, with a set of completed objective slots in place of the mission-data array.
- Creatures.CreatureTypesInit: the vendor block of a loaded type is a given `VendorData`. Its default package id comes from a class that is not part of this model.
- Creatures.CreateCreature: the new actor's entity id is a parameter, because the actor constructor is not part of this model. The spawn-pool count change is recorded as the pool ids whose count went up.
- Creatures.CreateCreatureOnClient: the recipient is the map client's player connection, None for a null player. The `fault` flag stands for the NullReferenceException at lines 124 and 136. A null map client is folded into a null player. The intro loops `Creatures.CellIntroduceCreatureToClients` and `Creatures.CellIntroduceCreaturesToClient` stop at the first fault, as the exception leaves them.
- `CreatureInit`, `FindCreature`, `SetLocation` and the auction and vendor requests of the creature manager are outside the modelled core.
- Ids that are `uint` in the source are `int` here. These are the creature and creature-type database ids (for example `dbId` at CreatureManager.cs:58), the skill ids and the ability slot ids. Negative ids are therefore accepted, though no caller can produce one. `SkillTables.GetSkillIndexById` returns -1 for them. `Creatures.CreateCreature` finds no creature unless a negative id was loaded, which the unsigned columns rule out.

## Findings

| source | as written | input that shows it | evidently intended | confidence | as-written member | corrected member |
|---|---|---|---|---|---|---|
| src/Rasa.Game/Managers/PlayerManager.cs:414-435 | Swapping two occupied drawer slots moves the entries but leaves their `AbilitySlotId` fields alone. The rows are then written under those old slot ids, so the table keeps the pre-swap bindings. | Drawer {1: (slot 1, ability 10), 2: (slot 2, ability 20)}, swap 1 and 2. The drawer shows ability 20 in slot 1, but the table still has ability 10 there. | Rewrite each moved entry's slot id so that the table follows the swap. | not executed | AbilityDrawer.SwapIsNotPersistedExample | AbilityDrawer.FixedSwapIsPersisted |
