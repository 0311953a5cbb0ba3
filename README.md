# Blastia / BlasterMaster core, modelled in Dafny

This project models the game-state core of the two variants of the tile game.

- **Save slots.** Each variant has a `PlayerManager` that keeps a players folder and a worlds folder. It creates, tests and lists `.bmplr` and `.bmwld` save files, and it holds the selected player and world.
- **World record.** `WorldState` holds a world's name, difficulty and size, plus its tiles as one row-major `ushort` array indexed by `y * WorldWidth + x`.
- **Terrain generation.** `WorldGen` runs noise passes over every cell. The running noise value of a cell accumulates across passes, and a pass writes its block whenever that value is above the pass's threshold.
- **Entity physics.** `Entity.Update` applies gravity, then folds the pending impulse into the velocity, then integrates the position and clamps it against the tile grid. The grid clamp grounds the entity on a solid tile and stops it at solid tiles to its left or right.
- **The player.** A player steers from the W/A/S/D keys. A preview player does not move.
- **The running world.** The running `World` reports its block count and mass, and it keeps a ruler whose ends snap to the block grid and along which highlights are placed.
- **Text input.** `KeyboardHelper` handles Space, Back and character keys with an initial hold delay and a repeat interval. Shift and caps lock decide letter case.

Floats are modelled as exact `real`s. Code that the model cannot see becomes function parameters:
- the Perlin noise;
- vector normalisation;
- the world's `HasTile`;
- the save-file loader or instance creator;
- the directory listing;
- the set of files that exist.

The game loop's frame time, keyboard state and caps-lock state are parameters too.

Each class keeps the source's own fields, and its methods update them in place:
- `WorldState` keeps its tiles as an `array`;
- `Entity` keeps position, velocity, impulses and grounded flag;
- `KeyboardHelper` keeps its hold-time map;
- `StringBuilder` keeps its characters;
- `World` keeps its ruler;
- both `PlayerManager`s keep their folders and selection.

Every state-changing method is proved against a pure step function (`GravityStep`, `ImpulseStep`, `Collide`, `Tick`, `HoldStep`, `Sweep`, `CellAfter`). The lemmas about those functions state the properties.

Points where the code's behaviour is easy to misread; the model follows the code:
- **Ground snap.** The grounding "snap" sets Y to `(groundTileY - Height) * Size`, and that is the candidate Y itself, so Y is unchanged.
- **Left clamp.** The left-wall clamp moves X by `-2 * Width * Size`.
- **Right clamp.** The right-wall clamp leaves X where it was.
- **No player gravity.** `Player.Update` moves the player through `UpdatePosition` only. The player never receives gravity or impulse integration.
- **Returned flag.** `ProcessInput` returns the flag of the last handler that ran, not whether anything changed during the sweep.
- **Digit keys.** The digit keys are named `D0`..`D9`, so they type nothing: only single-character key names type.
- **Terrain seed.** `WorldGen.Generate` never reads its seed.
- **Pass amplitude.** A pass's amplitude is never used when sampling.

## Model

| member | source | states |
|---|---|---|
| WorldRecords.CellIndexInBounds | Blastia/Main/PlayerManager.cs:204-212 | a cell inside the width-by-height grid indexes inside the tile array |
| WorldRecords.CellIndexInjective | Blastia/Main/PlayerManager.cs:204-212 | two in-row cells with the same row-major index are the same cell, so a tile write touches one cell only |
| WorldRecords.CellOfIndex | Blastia/Main/PlayerManager.cs:198-202 | every index of the tile array is the index of exactly one in-grid cell |
| WorldRecords.GetAfterSet | Blastia/Main/PlayerManager.cs:204-212 | reading a cell after setting one gives the new value at that cell and the old value everywhere else |
| WorldRecords.AllCellsAllTiles | Blastia/Main/PlayerManager.cs:198-202 | when every cell holds v, every entry of the one-dimensional tile array holds v |
| WorldRecords.WorldState.constructor | Blastia/Main/PlayerManager.cs:193-202 | a record of the given name, difficulty and size whose width*height tiles are all 0 |
| WorldRecords.WorldState.Named | Blastia/Main/PlayerManager.cs:193-202 | a record carrying only a name: Easy difficulty, size 0 by 0, no tiles |
| WorldRecords.WorldState.GetTile | Blastia/Main/PlayerManager.cs:204-207 | the tile at y*WorldWidth+x, which is the grid view's cell (x, y) |
| WorldRecords.WorldState.SetTile | Blastia/Main/PlayerManager.cs:209-212 | only the entry at y*WorldWidth+x changes, and the grid view is the old one with cell (x, y) replaced |
| SaveFiles.GetPath | Blastia/Main/PlayerManager.cs:97-101 | the path lies in the folder and its file name is the name followed by the extension, so its length is the sum of theirs |
| SaveFiles.EndsWith | BlasterMaster/Main/PlayerManager.cs:68 | a string that ends with the suffix is some prefix followed by the suffix |
| SaveFiles.EndsWithAppended | BlasterMaster/Main/PlayerManager.cs:68 | anything followed by the suffix ends with it |
| SaveFiles.Matching | BlasterMaster/Main/PlayerManager.cs:65-68 | the listed files that end with the extension, and only those |
| SaveFiles.MatchingConcat | BlasterMaster/Main/PlayerManager.cs:65-68 | filtering a listing filters each part of it, keeping the listing order |
| SaveFiles.LastIndexOf | BlasterMaster/Main/PlayerManager.cs:71 | the position of the last occurrence of the character, or -1 when it does not occur |
| SaveFiles.LastSeparator | BlasterMaster/Main/PlayerManager.cs:71 | the position of the last directory separator ('\\' or '/'), or -1 when there is none |
| SaveFiles.FileName | BlasterMaster/Main/PlayerManager.cs:71 | a suffix of the path |
| SaveFiles.FileNameIsLastComponent | BlasterMaster/Main/PlayerManager.cs:71 | the file name holds no separator and is preceded by one whenever it is not the whole path |
| SaveFiles.FileNameAfterFolder | BlasterMaster/Main/PlayerManager.cs:65-71 | a separator-free name in a folder path has that name as its file name |
| SaveFiles.FileNameWithoutExtension | BlasterMaster/Main/PlayerManager.cs:71 | a prefix of the file name (the directory stripped); when the name holds a period it ends just before the last one, otherwise it is the whole name |
| SaveFiles.NameRoundTrip | BlasterMaster/Main/PlayerManager.cs:68-88 | stripping directory and extension from folder + name + ".ext" gives the name back, for any folder path and a separator-free name |
| BlastiaPlayerManager.GetExtension | Blastia/Main/PlayerManager.cs:115-125 | each save kind has a six-character extension with a single leading period |
| BlastiaPlayerManager.ExtensionsKeepKindsApart | Blastia/Main/PlayerManager.cs:115-125 | no file name ends with both the player and the world extension |
| BlastiaPlayerManager.GenerateWorldTiles | Blastia/Main/PlayerManager.cs:170-182 | every cell, and so every tile of the array, becomes stone; with a dimension of 0 or less the tiles are untouched |
| BlastiaPlayerManager.PlayerManager.constructor | Blastia/Main/PlayerManager.cs:10-16 | no folders are set and nothing is selected |
| BlastiaPlayerManager.PlayerManager.Initialize | Blastia/Main/PlayerManager.cs:18-22 | both folders are set, so each kind of save then resolves to its folder, and the selection is unchanged |
| BlastiaPlayerManager.PlayerManager.GetFolder | Blastia/Main/PlayerManager.cs:103-113 | players resolve to the players folder and worlds to the worlds folder |
| BlastiaPlayerManager.PlayerManager.New | Blastia/Main/PlayerManager.cs:28-51 | fails with the null-folder message exactly when the folder is null or empty; otherwise writes folder/name.ext, with data or empty as data is given, exactly when the directory exists and the file does not |
| BlastiaPlayerManager.PlayerManager.Exists | Blastia/Main/PlayerManager.cs:53-66 | fails like New on an unset folder; otherwise answers whether folder/name.ext exists |
| BlastiaPlayerManager.PlayerManager.NewThenExists | Blastia/Main/PlayerManager.cs:28-66 | New writes exactly when Exists says the file is absent, and Exists says true once the written file is there |
| BlastiaPlayerManager.PlayerManager.LoadAll | Blastia/Main/PlayerManager.cs:68-95 | one loaded item per listed file with the extension, in listing order; nothing for an unset folder |
| BlastiaPlayerManager.PlayerManager.NewPlayer | Blastia/Main/PlayerManager.cs:128-135 | fails exactly on an unset players folder; a write is the player data to players/name.bmplr |
| BlastiaPlayerManager.PlayerManager.PlayerExists | Blastia/Main/PlayerManager.cs:136 | whether players/name.bmplr exists, failing on an unset folder |
| BlastiaPlayerManager.PlayerManager.LoadAllPlayers | Blastia/Main/PlayerManager.cs:137 | the loaded .bmplr files in listing order |
| BlastiaPlayerManager.PlayerManager.SelectPlayer | Blastia/Main/PlayerManager.cs:139-142 | the player becomes selected and nothing else changes |
| BlastiaPlayerManager.PlayerManager.NewWorld | Blastia/Main/PlayerManager.cs:145-159 | a fresh record of the given name, difficulty and size with width*height tiles, all stone when the width is not negative and all 0 when a dimension is 0 or less, saved with its data to the worlds folder |
| BlastiaPlayerManager.PlayerManager.WorldExists | Blastia/Main/PlayerManager.cs:161 | whether worlds/name.bmwld exists, failing on an unset folder |
| BlastiaPlayerManager.PlayerManager.LoadAllWorlds | Blastia/Main/PlayerManager.cs:162 | the loaded .bmwld files in listing order |
| BlastiaPlayerManager.PlayerManager.SelectWorld | Blastia/Main/PlayerManager.cs:164-168 | the world becomes selected and nothing else changes |
| BlasterMasterPlayerManager.SaveNames | BlasterMaster/Main/PlayerManager.cs:57-82 | one save name per listed file with the extension |
| BlasterMasterPlayerManager.ListedSaveHasItsName | BlasterMaster/Main/PlayerManager.cs:57-88 | a listed file folder + name + ".ext" is listed under the name it was saved with |
| BlasterMasterPlayerManager.PlayerManager.constructor | BlasterMaster/Main/PlayerManager.cs:11-15 | no folders are set and nothing is selected |
| BlasterMasterPlayerManager.PlayerManager.Initialize | BlasterMaster/Main/PlayerManager.cs:17-21 | both folders are set and the selection is unchanged |
| BlasterMasterPlayerManager.PlayerManager.New | BlasterMaster/Main/PlayerManager.cs:23-43 | fails with "Save path not initialized." exactly when the folder is null or empty; otherwise writes exactly when the directory exists and the file does not |
| BlasterMasterPlayerManager.PlayerManager.Exists | BlasterMaster/Main/PlayerManager.cs:45-55 | fails on an unset folder; otherwise answers whether folder/name.ext exists |
| BlasterMasterPlayerManager.PlayerManager.LoadAll | BlasterMaster/Main/PlayerManager.cs:57-82 | one created item per listed file with the extension, built from its name without extension, in listing order; nothing for an unset folder |
| BlasterMasterPlayerManager.PlayerManager.NewPlayer | BlasterMaster/Main/PlayerManager.cs:91 | a player file is created empty at players/name.bmplr |
| BlasterMasterPlayerManager.PlayerManager.PlayerExists | BlasterMaster/Main/PlayerManager.cs:92 | whether players/name.bmplr exists, failing on an unset folder |
| BlasterMasterPlayerManager.PlayerManager.LoadAllPlayers | BlasterMaster/Main/PlayerManager.cs:93-94 | one player per listed .bmplr file, named after it, in order |
| BlasterMasterPlayerManager.PlayerManager.SelectPlayer | BlasterMaster/Main/PlayerManager.cs:96-99 | the player becomes selected and nothing else changes |
| BlasterMasterPlayerManager.PlayerManager.NewWorld | BlasterMaster/Main/PlayerManager.cs:102-116 | a fresh record of the given name, difficulty and size with width*height tiles, all stone when the width is not negative and all 0 when a dimension is 0 or less, saved with its data |
| BlasterMasterPlayerManager.PlayerManager.WorldExists | BlasterMaster/Main/PlayerManager.cs:118 | whether worlds/name.bmwld exists, failing on an unset folder |
| BlasterMasterPlayerManager.PlayerManager.LoadAllWorlds | BlasterMaster/Main/PlayerManager.cs:119-120 | one fresh, empty world record of Easy difficulty per listed .bmwld file, carrying its name, in order |
| BlasterMasterPlayerManager.PlayerManager.SelectWorld | BlasterMaster/Main/PlayerManager.cs:122-125 | the world becomes selected and nothing else changes |
| WorldGen.DirtNoisePass | Blastia/Main/GameState/WorldGen.cs:7-15 | frequency 150, 4 octaves, persistence 0.5, threshold 0, amplitude 1, the dirt block |
| WorldGen.AccumulatedSplits | Blastia/Main/GameState/WorldGen.cs:28-43 | the running value over two runs of passes is the sum of their running values: it is never reset |
| WorldGen.AccumulatedFromFront | Blastia/Main/GameState/WorldGen.cs:28-43 | the running value is the first pass's sample plus the running value of the rest |
| WorldGen.CellAfter | Blastia/Main/GameState/WorldGen.cs:28-43 | a cell ends with its prior tile or with the block of one of the passes |
| WorldGen.NoQualifyingPassKeepsTile | Blastia/Main/GameState/WorldGen.cs:28-43 | a cell whose running value never exceeds a pass's threshold keeps its tile |
| WorldGen.LastQualifyingPassWins | Blastia/Main/GameState/WorldGen.cs:28-43 | a cell ends with the block of the last pass whose threshold its running value exceeded |
| WorldGen.DefaultPassIsDirtOrPrior | Blastia/Main/GameState/WorldGen.cs:7-25 | with the default pass (frequency 150, 4 octaves, persistence 0.5, threshold 0) a cell becomes dirt exactly when its sample is above 0 |
| WorldGen.AccumulationCarriesAcrossPasses | Blastia/Main/GameState/WorldGen.cs:32-40 | the running value is not reset between passes, so a pass can write although its own sample is below its threshold |
| WorldGen.RunPasses | Blastia/Main/GameState/WorldGen.cs:28-43 | every cell of the grid ends as the passes dictate for its prior tile |
| WorldGen.Generate | Blastia/Main/GameState/WorldGen.cs:17-44 | every cell ends as the default passes dictate for its prior tile |
| Entities.MovementKeysAreUnitSteps | Blastia/Main/Entities/Common/Entity.cs:13-19 | exactly W, A, S and D move, each by a unit vector, and A/D and W/S point in opposite directions |
| Entities.GravityStep | Blastia/Main/Entities/Common/Entity.cs:209-233 | gravity changes only the Y velocity and leaves a grounded entity alone |
| Entities.ImpulseStep | Blastia/Main/Entities/Common/Entity.cs:180-204 | the position and grounding are kept, and the pending impulse is either kept or cleared together with the applied part |
| Entities.GroundCheck | Blastia/Main/Entities/Common/Entity.cs:113-123 | grounded exactly when the tile below is at least 1; grounding zeroes the Y velocity; X follows the candidate |
| Entities.SideCheck | Blastia/Main/Entities/Common/Entity.cs:126-152 | the vertical state and impulses are kept; X and its velocity either stay or the velocity is zeroed |
| Entities.Collide | Blastia/Main/Entities/Common/Entity.cs:95-153 | the impulses are kept; with no world the candidate is taken as it is; grounding can only change with a world |
| Entities.Tick | Blastia/Main/Entities/Common/Entity.cs:73-89 | the impulses after a tick are those of the impulse step: collision never touches them |
| Entities.Entity.ClampToGround | Blastia/Main/Entities/Common/Entity.cs:113-123 | the entity's velocity and grounding become the ground check's, its position is kept, and the clamped position is returned |
| Entities.Entity.ClampToSides | Blastia/Main/Entities/Common/Entity.cs:126-152 | the entity's velocity becomes the side check's, its position is kept, and the clamped position is returned |
| Entities.GravityAlongY | Blastia/Main/Entities/Common/Entity.cs:209-233 | gravity adds force/mass to the Y velocity only, and only when gravity applies, a world is selected and the entity is airborne |
| Entities.ImpulseConserved | Blastia/Main/Entities/Common/Entity.cs:180-204 | velocity plus the pending remainder of the impulse is the same after an impulse step; nothing happens with no impulse |
| Entities.ImpulseNeverOvershoots | Blastia/Main/Entities/Common/Entity.cs:180-204 | the applied part of an impulse stays a fraction between 0 and 1 of the total |
| Entities.ShortFrameAppliesWholeImpulse | Blastia/Main/Entities/Common/Entity.cs:180-204 | on a frame shorter than a second, a fresh impulse is applied whole and both accumulators clear |
| Entities.UnguardedCandidateKept | Blastia/Main/Entities/Common/Entity.cs:95-110 | with no world, or with tile coordinates outside the open grid ranges, the new position is taken unclamped |
| Entities.GroundingRule | Blastia/Main/Entities/Common/Entity.cs:113-123 | inside the grid, the entity is grounded exactly when the tile below is at least 1, and grounding zeroes the Y velocity while leaving Y at the candidate |
| Entities.HorizontalClamp | Blastia/Main/Entities/Common/Entity.cs:126-152 | a solid left probe moves X by -2*Width*Size, a solid right probe keeps X, and either zeroes the X velocity; the vertical outcome is untouched |
| Entities.CollisionOnlyStopsMotion | Blastia/Main/Entities/Common/Entity.cs:95-153 | a collision keeps or zeroes each velocity component and never touches the impulses |
| Entities.FreeFlightWithoutWorld | Blastia/Main/Entities/Common/Entity.cs:73-89 | with no world, a tick is the impulse step followed by plain integration |
| Entities.GroundedFeelsNoGravity | Blastia/Main/Entities/Common/Entity.cs:73-78 | a grounded entity's tick skips gravity |
| Entities.Entity.constructor | Blastia/Main/Entities/Common/Entity.cs:27-57 | the given position and scale, zero velocity and impulses, mass 1, airborne, no gravity |
| Entities.Entity.ApplyForce | Blastia/Main/Entities/Common/Entity.cs:159-164 | the velocity gains force/mass and nothing else changes |
| Entities.Entity.AddImpulse | Blastia/Main/Entities/Common/Entity.cs:171-175 | the pending impulse gains force*seconds and nothing else changes |
| Entities.Entity.UpdateImpulse | Blastia/Main/Entities/Common/Entity.cs:180-204 | the state becomes the impulse step of the old state |
| Entities.Entity.ApplyGravityForce | Blastia/Main/Entities/Common/Entity.cs:209-233 | the state becomes the gravity step of the old state |
| Entities.Entity.HandleCollision | Blastia/Main/Entities/Common/Entity.cs:95-153 | the state becomes the collision outcome of the candidate position |
| Entities.Entity.UpdatePosition | Blastia/Main/Entities/Common/Entity.cs:83-89 | the state becomes the collision outcome of the integrated position |
| Entities.Entity.Update | Blastia/Main/Entities/Common/Entity.cs:73-78 | the state becomes one tick: gravity, then impulse, then integration and collision |
| Players.DirectionOf | Blastia/Main/Entities/Common/Entity.cs:13-19 | a key's direction is its movement-map entry, or zero for a key not in the map |
| Players.DirectionSumCounts | Blastia/Main/Entities/HumanLikeEntities/Player.cs:55-72 | the summed direction is (#D - #A, #S - #W) over the pressed keys |
| Players.DistinctCount | Blastia/Main/Entities/HumanLikeEntities/Player.cs:55-72 | in a list of distinct keys a key occurs once if pressed and never otherwise |
| Players.OppositeKeysCancel | Blastia/Main/Entities/HumanLikeEntities/Player.cs:55-72 | each axis is +1, -1 or 0 from its two keys, and opposite keys held together cancel |
| Players.MovementVelocity | Blastia/Main/Entities/HumanLikeEntities/Player.cs:55-72 | zero for a zero direction; otherwise the normalised direction times the speed |
| Players.Player.constructor | Blastia/Main/Entities/HumanLikeEntities/Player.cs:24-37 | not a preview, at the given position and scale, at rest, with movement speed 0.25 |
| Players.Player.SumDirections | Blastia/Main/Entities/HumanLikeEntities/Player.cs:59-64 | the sum of the pressed keys' directions |
| Players.Player.HandleMovement | Blastia/Main/Entities/HumanLikeEntities/Player.cs:55-72 | the velocity is set from the keys, then the position is integrated and clamped |
| Players.Player.Update | Blastia/Main/Entities/HumanLikeEntities/Player.cs:39-53 | a preview player keeps its state; any other player moves as in HandleMovement |
| GameWorld.WrapInt32 | Blastia/Main/GameState/World.cs:45-48 | a value in the 32-bit range, congruent to the input, and equal to it when it fits |
| GameWorld.GetBlocksAmount | Blastia/Main/GameState/World.cs:45-48 | width*height when the product fits in 32 bits |
| GameWorld.BlocksAmountWraps | Blastia/Main/GameState/World.cs:45-48 | a product of 2^31 wraps around to a negative block count |
| GameWorld.GetMass | Blastia/Main/GameState/World.cs:54-63 | the mass is 888.72 per block (0.36 * 1602 + 0.24 * 1300) |
| GameWorld.MassPerBlock | Blastia/Main/GameState/World.cs:54-63 | the mass is 888.72 per block, non-negative and growing with the block count while it fits in 32 bits |
| GameWorld.RoundToBlocks | Blastia/Main/GameState/World.cs:68-71 | the snapped coordinate is a whole multiple of the block size (it snaps to itself), at most the value and less than one block below it |
| GameWorld.RoundedToBlocks | Blastia/Main/GameState/World.cs:68-71 | on each axis, a whole multiple of the block size at most the coordinate and less than one block below it: the corner of the block holding the point |
| GameWorld.World.GetRulerStartRoundedToBlocks | Blastia/Main/GameState/World.cs:68-69 | on each axis, a whole multiple of the block size at most the ruler start's coordinate and less than one block below it |
| GameWorld.World.GetRulerEndRoundedToBlocks | Blastia/Main/GameState/World.cs:70-71 | on each axis, a whole multiple of the block size at most the ruler end's coordinate and less than one block below it |
| GameWorld.RoundToBlocksBounds | Blastia/Main/GameState/World.cs:68-71 | a snapped coordinate is a multiple of the block size, at most the value and within one block of it |
| GameWorld.World.constructor | Blastia/Main/GameState/World.cs:21-30 | the given state, ruler mode off, both ruler ends at the origin |
| GameWorld.World.SetRulerStart | Blastia/Main/GameState/World.cs:65 | only the ruler start changes |
| GameWorld.World.SetRulerEnd | Blastia/Main/GameState/World.cs:66 | only the ruler end changes |
| GameWorld.World.DrawRulerLine | Blastia/Main/GameState/World.cs:78-101 | none without the ruler menu or camera; otherwise floor(abs(xDiff)/8) highlights, the i-th 8*(i+1) units from the snapped start towards the end on the start's row, all between the two ends |
| GameWorld.World.HighlightTargets | Blastia/Main/GameState/World.cs:103-110 | the two raw ruler ends, only when the ruler menu and camera exist |
| KeyboardHelper.StringBuilder.Insert | BlasterMaster/Main/Utilities/KeyboardHelper.cs:119-170 | the character is inserted at the index |
| KeyboardHelper.StringBuilder.Remove | BlasterMaster/Main/Utilities/KeyboardHelper.cs:131-143 | the given range is removed |
| KeyboardHelper.SpaceEdit | BlasterMaster/Main/Utilities/KeyboardHelper.cs:119-129 | changes exactly for Space, which inserts ' ' at the cursor, keeps the rest and advances the cursor; any other key leaves text and cursor |
| KeyboardHelper.BackSpaceEdit | BlasterMaster/Main/Utilities/KeyboardHelper.cs:131-143 | changes exactly for Back on a non-empty text with a non-zero cursor, removing the one character at the new cursor; otherwise text and cursor stay |
| KeyboardHelper.TypedChar | BlasterMaster/Main/Utilities/KeyboardHelper.cs:145-170 | a letter or digit that is the key's own character up to case |
| KeyboardHelper.CharacterEdit | BlasterMaster/Main/Utilities/KeyboardHelper.cs:145-170 | changes exactly for a one-letter-or-digit key, inserting its typed character at the cursor and advancing it; otherwise text and cursor stay |
| KeyboardHelper.EditsKeepCursorIn | BlasterMaster/Main/Utilities/KeyboardHelper.cs:119-170 | every handler keeps the cursor within the text |
| KeyboardHelper.SpaceThenBackSpace | BlasterMaster/Main/Utilities/KeyboardHelper.cs:119-143 | Back right after Space restores the text and the cursor |
| KeyboardHelper.CharacterThenBackSpace | BlasterMaster/Main/Utilities/KeyboardHelper.cs:131-170 | Back right after a typed character restores the text and the cursor |
| KeyboardHelper.BackSpaceDeletesOne | BlasterMaster/Main/Utilities/KeyboardHelper.cs:131-143 | Back changes the text exactly when it is non-empty and the cursor is not 0, deleting exactly the character before the cursor |
| KeyboardHelper.CasingRule | BlasterMaster/Main/Utilities/KeyboardHelper.cs:145-170 | a letter is typed upper case exactly when shift XOR caps lock, and it is always the key's letter |
| KeyboardHelper.LongKeyNamesTypeNothing | BlasterMaster/Main/Utilities/KeyboardHelper.cs:145-170 | a key whose name is longer than one character types nothing and reports no change |
| KeyboardHelper.HoldStep | BlasterMaster/Main/Utilities/KeyboardHelper.cs:218-245 | an up key keeps its timer and never fires; a fresh press restarts at 0 and fires; a held key's timer grows by the frame time, less one repeat interval on each firing |
| KeyboardHelper.HoldTimerStaysBelowDelay | BlasterMaster/Main/Utilities/KeyboardHelper.cs:218-245 | while the frame time is at most the interval and the interval at most the delay, a hold timer stays in [0, delay) |
| KeyboardHelper.HoldFiring | BlasterMaster/Main/Utilities/KeyboardHelper.cs:218-245 | the action runs exactly on the press frame and when a held key's timer reaches the delay |
| KeyboardHelper.ProcessKeyHoldRef | BlasterMaster/Main/Utilities/KeyboardHelper.cs:183-208 | the held key's timer follows the hold rule, and the opposite key's timer is zeroed while the key is down |
| KeyboardHelper.HandlerEdit | BlasterMaster/Main/Utilities/KeyboardHelper.cs:66-92 | the handler bound to a key keeps the cursor within the text |
| KeyboardHelper.KeyStep | BlasterMaster/Main/Utilities/KeyboardHelper.cs:57-98 | one key of the sweep keeps the cursor within the text |
| KeyboardHelper.Sweep | BlasterMaster/Main/Utilities/KeyboardHelper.cs:55-99 | the sweep over all keys keeps the cursor within the text |
| KeyboardHelper.SweepHoldTimes | BlasterMaster/Main/Utilities/KeyboardHelper.cs:55-99 | after the sweep a swept non-arrow key has a hold time exactly when it is down, and arrows and unswept keys keep theirs |
| KeyboardHelper.QuietSweep | BlasterMaster/Main/Utilities/KeyboardHelper.cs:43-101 | a sweep in which no action fires leaves the text and the cursor alone and returns false |
| KeyboardHelper.QuietKeyKeepsFlag | BlasterMaster/Main/Utilities/KeyboardHelper.cs:57-98 | a key whose action does not run leaves the text, the cursor and the flag alone |
| KeyboardHelper.LastHandlerDecides | BlasterMaster/Main/Utilities/KeyboardHelper.cs:43-101 | the returned flag is that of the last handler that ran in the sweep, whatever key it was, or false when none ran |
| KeyboardHelper.KeyboardHelper.constructor | BlasterMaster/Main/Utilities/KeyboardHelper.cs:11 | no key has a hold time |
| KeyboardHelper.KeyboardHelper.ProcessKeyHold | BlasterMaster/Main/Utilities/KeyboardHelper.cs:218-245 | the key's stored timer follows the hold rule and no other key's entry changes |
| KeyboardHelper.KeyboardHelper.ProcessKey | BlasterMaster/Main/Utilities/KeyboardHelper.cs:57-98 | text, cursor, hold times and flag become one step of the sweep |
| KeyboardHelper.KeyboardHelper.ProcessInput | BlasterMaster/Main/Utilities/KeyboardHelper.cs:43-101 | text, hold times and returned flag are those of the sweep over all keys |
| KeyboardHelper.HandleSpace | BlasterMaster/Main/Utilities/KeyboardHelper.cs:119-129 | Space inserts ' ' at the cursor and advances it; any other key changes nothing |
| KeyboardHelper.HandleBackSpace | BlasterMaster/Main/Utilities/KeyboardHelper.cs:131-143 | Back deletes the character before the cursor and steps it back, when there is one |
| KeyboardHelper.HandleCharacter | BlasterMaster/Main/Utilities/KeyboardHelper.cs:145-170 | a single-character key inserts its cased letter or digit at the cursor and advances it |

## Left out

- File I/O is not modelled: serialisation, `File.Create` and `Directory.GetFiles`. The existing files, the listing order, whether the directory exists and the loader are parameters. `New` returns the save action it would take.
- The numerics of `Noise.OctavePerlin` are a function parameter. `BlockID` values (stone, dirt) and `Block.Size` are parameters too.
- The gravity force, which the world computes from its mass, is a parameter of `ApplyGravityForce`. Only `GetMass` itself is modelled.
- `Vector2.Normalize` is a function parameter. `World.HasTile` is a function parameter. The collision grid is a value snapshot of the selected world's tiles.
- The singletons (`PlayerManager.Instance`, `BlasterMasterGame`, `BlastiaGame`) become explicit parameters and receivers.
- `RequestWorldInitialization` in `SelectWorld` is not modelled: it is a call into the game loop.
- The camera, the ruler menu, the walking animation, `PreviewUpdate`'s animation and `World.SetPlayer` are not modelled. They only decide whether drawing happens, which the model takes as booleans.
- The caps-lock query through `GetKeyState` (a foreign call) is a boolean parameter. Console logging is left out.
- Floating-point rounding, single-precision storage and the double-to-float casts are not modelled: arithmetic is exact over `real`.
- BlastiaPlayerManager.PlayerManager.NewWorld: requires 0 <= width*height < 2^31. In the source a negative product makes `new ushort[...]` throw, and a product of 2^31 or more wraps in 32-bit `int` arithmetic, so the array either gets a negative size and throws or gets a wrapped, too small size. Neither outcome is modelled. Two negative sizes are admitted as in the source: the record then holds their positive product of tiles, all left at 0.
- BlasterMasterPlayerManager.PlayerManager.NewWorld: the same requires and the same unmodelled overflow and exception as the Blastia `NewWorld`.
- WorldRecords.WorldState.constructor: the same requires; the record's tile array is allocated from the exact product.
- SaveFiles.FileName: both '\\' and '/' count as directory separators, as on Windows. Volume prefixes such as "C:" and the other invalid-path rules of `System.IO.Path` are not modelled.
- WorldRecords.WorldState.GetTile: the index `y * WorldWidth + x` is exact. Its 32-bit wrap-around is not modelled; the requires keep the index inside the array.
- SaveFiles.EndsWith: an ordinal suffix test. The culture-sensitive comparison of `string.EndsWith` is not modelled.
- KeyboardHelper.HandleCharacter: letters, digits and casing are ASCII only, while `char.IsLetterOrDigit`, `ToUpper` and `ToLower` are Unicode-aware.
- KeyboardHelper.StringBuilder.Insert: an out-of-range index, which throws in .NET, is excluded by the requires.
- KeyboardHelper.KeyboardHelper.ProcessInput: requires the cursor to lie in [0, |text|]. In the source a negative cursor still works when only Back fires, because `Math.Max(0, index - 1)` clamps it, and a cursor past the end makes `Remove` or `Insert` throw. Neither case is reachable through this model's `ProcessInput`.
- KeyboardHelper.BackSpaceEdit: models the clamp of a negative cursor, but requires a cursor at most |text| whenever Back deletes; a cursor past the end, where .NET `Remove` throws, is excluded. `StringBuilder.Remove` and `HandleBackSpace` have the same requires.
- Entities.Entity.ApplyForce: requires a non-zero mass. Division by a zero mass gives an infinity in the source, and that is not modelled. The same holds for `Entity.Update`, `ApplyGravityForce` and `Tick`.
- Entities.Entity.UpdateImpulse: requires a positive frame time. A zero frame time divides by zero in the source, and that is not modelled.
- The UI elements, buttons, audio manager and game-loop classes (`BlasterMasterGame`) are not part of this model.
- The `Object` base class is folded into `Entities.Entity`: only its position and scale fields matter here. The `HumanLikeEntity` base constructor is not part of this model; the player's body starts from the entity defaults.
