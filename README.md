# Rainforest: a Dafny model of the game's world, visibility and front end

Rainforest is a small roguelike set in a rainforest. This project models its core:

- **The world.** Entities carry components, and a spatial table places each entity on one of four layers (floor, feature, character, item) of a grid.
- **Spawning and the text map.** Spawning creates entities from prefabs, and the text map parser builds a world from a multi-line string.
- **The visibility grid.** It records, generation by generation, which cells the player sees, how each cell is lit, and a snapshot of the tiles last seen there.
- **The front end.** Rain drops fall and splash over the map. Examining a cell describes it. The witness state machine says which input the game expects next. The control bindings map keys and buttons to actions. Procedural texture fields store per-cell tea patterns, ground glyphs and log colours.

How each part is written in Dafny:

- **Values.** Pure data are datatypes:
  - the component tables are a datatype of maps and sets;
  - the spatial table is a map from slots to entities;
  - tiles, prefabs, inputs and witnesses are datatypes.
- **State.** The parts the source changes in place are classes:
  - `World.World` holds the allocator, spatial table and components;
  - `Visibility.VisibilityGrid` holds the cells as an `array`, plus the generation counter;
  - `Rain.Rain` holds the drops as an `array`.
- **Loops.** Loops are methods with invariants, each proved against a specification function on sequences or maps:
  - switching lamps and flooding are loops over the component tables;
  - the visibility passes are loops over the cells reached;
  - the rain tick is a loop over the drops;
  - the map parser is a loop over rows and characters;
  - the log texture generator is a loop over rows and cells.
- **Randomness and external code.** Random choices and the shadowcasting library are parameters:
  - the random choices are per-cell or per-index draw functions;
  - the shadowcasting library is a function `fov` from an origin and a squared radius to the cells it reaches.

The code and its documentation differ in two places; the model follows the code:

- When the visibility update runs in omniscient mode, it does not stop after the omniscient pass. The light pass still runs over the omniscient result, which is why `Visibility.OmniscientSeesAll` has to show that lights cannot darken a white cell.
- The documentation lets a cell be currently visible with no light colour, in darkness. In the code, a cell's `last_seen` is set to the current generation only where `last_lit` already equals it. So `CurrentlyVisibleWithLightColour(None)` never comes out of the grid. `Visibility.SeenIsLit` proves this, and `VisibilityGrid.CellVisibility` states it.

## Model

| member | source | states |
|---|---|---|
| Components.MakePlayer | game/src/components.rs:115-129 | the player's data carry the player tile, the player marker and a light whose diminish ratio has a non-zero denominator |
| Components.SpatialTable.LayersAt | game/src/world.rs:38-44 | the layers at a coordinate exist exactly inside the grid and are the four layer slots there |
| Components.SpatialTable.Insert | game/src/world.rs:57-62 | placing a new entity keeps the table well formed, gives the entity its location, keeps every other location, and changes exactly the one slot it occupies |
| Components.EmptySpatialTable | game/src/world.rs:21-32 | a new table of the given size is well formed with every slot empty |
| World.OpenedDoor | game/src/world.rs:123-137 | opening a door leaves it open, non-solid and transparent, with the axis it had |
| World.ClosedDoor | game/src/world.rs:139-153 | closing a door leaves it closed, solid and opaque, with the axis it had |
| World.CloseClosedIsIdentity | game/src/world.rs:139-153 | closing a door that is already closed changes none of its components |
| World.CloseAfterOpenRestores | game/src/world.rs:123-153 | opening a closed door and closing it again gives back exactly the same components |
| World.OpenAfterCloseRestores | game/src/world.rs:123-153 | closing an open door and opening it again gives back exactly the same components |
| World.LampsLitUnique | game/src/world.rs:160-168 | turning lamps on has one outcome whatever order the tables are walked in |
| World.LampsOnAfterOff | game/src/world.rs:160-178 | turning the lamps off and then on gives the same components as turning them on directly |
| World.LampsOffAfterOn | game/src/world.rs:160-178 | turning the lamps on and then off gives the same components as turning them off directly |
| World.LightEachLamp | game/src/world.rs:161-164 | the loop gives every lamp the lamp light and the lit lamp tile, and keeps every other entry of both tables |
| World.LightEach | game/src/world.rs:165-167 | the loop gives every house light the house light and keeps every other entry |
| World.LightLamps | game/src/world.rs:160-168 | the loop gives every lamp the lamp light and the lit lamp tile, gives every house light the house light, and changes nothing else |
| World.DarkenEachLamp | game/src/world.rs:171-174 | the loop removes every lamp's light, gives it the unlit tile, and keeps every other entry of both tables |
| World.DarkenEach | game/src/world.rs:175-177 | the loop removes the light of every house light and keeps every other entry |
| World.DarkenLamps | game/src/world.rs:170-178 | the loop removes the light of every lamp and house light, gives lamps the unlit tile, and changes nothing else |
| World.AsWater | game/src/spawn.rs:155-179 | an entity made water has the water tile, the water and realtime markers, and the chosen colour hint |
| World.InsertByHeight | game/src/world.rs:188 | inserting into a height-sorted list keeps it sorted, and the result is a permutation of the list plus the new pair |
| World.SortByHeight | game/src/world.rs:188 | the result is sorted by height and is a permutation of the input |
| World.CollectHeights | game/src/world.rs:181-187 | the list holds each ground entity that has a height exactly once, with its height |
| World.PermutationFacts | game/src/world.rs:188 | a permutation of a height list keeps its entities distinct and keeps their heights and their set |
| World.DrownFirst | game/src/world.rs:189-191 | the loop turns exactly the first m sorted entities into water and changes nothing else |
| World.DrownStep | game/src/world.rs:189-191 | drowning one more cell adds exactly it to the drowned cells and keeps the rest of the flood's description |
| World.Dried | game/src/world.rs:193-194 | a dried cell shows plain ground and no longer animates |
| World.DryStep | game/src/world.rs:192-195 | drying one more cell that was not drowned adds exactly it to the kept cells and keeps the rest of the flood's description |
| World.DryRest | game/src/world.rs:192-195 | the loop gives the remaining entities the ground tile, takes them out of realtime, and changes nothing else |
| World.SplitOrdered | game/src/world.rs:188-195 | after cutting a height-sorted list, no cell before the cut is higher than one after it |
| World.FloodTables | game/src/world.rs:180-196 | the ground entities split into drowned and kept; there are min(n, total) drowned; none is higher than a kept one; the tables are updated exactly so |
| World.InsertedTiles | game/src/world.rs:57-62 | after inserting an entity, the tile shown at every coordinate and layer is the new entity's tile at its own slot and unchanged elsewhere |
| World.World.constructor | game/src/world.rs:21-32 | a new world has an empty spatial table of the given size, empty components and a fresh allocator |
| World.World.GetOpacityAtCoord | game/src/world.rs:38-44 | the opacity is that of the feature-layer occupant when it has one, and 0 off the grid, on an empty feature layer or without an opacity component |
| World.World.AllLightsByCoord | game/src/world.rs:46-55 | exactly the entities with a light and a location are listed, each with its coordinate and light |
| World.World.IsFloorAtCoord | game/src/world.rs:64-75 | true exactly when the coordinate is inside the grid and its floor layer shows floor or ground |
| World.World.IsWallAtCoord | game/src/world.rs:77-93 | true exactly when the coordinate is inside the grid and its feature layer shows a wall, ruined wall, window or door of either state |
| World.World.ShouldHideRain | game/src/world.rs:95-117 | true exactly when the cell shows indoor floor and the cell below does not show ground |
| World.World.InsertEntityData | game/src/world.rs:57-62 | the allocator's next entity is placed at the location with the given tile, player marker and light; it reads back exactly those components and every other entity's components are unchanged; only that slot's tile changes; the world stays valid |
| World.DataRows | game/src/world.rs:57-62 | inserting entity data into an entity with no components gives it exactly the data's tile and light and leaves every other entity alone |
| World.World.OpenDoor | game/src/world.rs:123-137 | the world stays valid, the components become the opened door's, and the door's cell then has opacity 0 |
| World.World.CloseDoor | game/src/world.rs:139-153 | the world stays valid, the components become the closed door's, and the door's cell then has opacity 255 |
| World.World.FlattenGrass | game/src/world.rs:155-158 | the world stays valid, the grass loses its opacity and shows flat grass, so its cell has opacity 0 |
| World.World.TurnLampsOn | game/src/world.rs:160-168 | the world stays valid, the components become the lit-lamp tables; the spatial table and allocator are unchanged |
| World.World.TurnLampsOff | game/src/world.rs:170-178 | the world stays valid, the components become the dark-lamp tables; the spatial table and allocator are unchanged |
| World.World.BecomeWater | game/src/spawn.rs:155-179 | an allocated entity's components become water with the given colour hint, and the world stays valid |
| World.World.Flood | game/src/world.rs:180-196 | the n lowest ground entities become water and the rest become dry ground; placement and allocator are unchanged and the world stays valid |
| Spawn.PrefabRow | game/src/spawn.rs:122-550 | the only lights a prefab carries are the house light, the lamp light and the lantern light |
| Spawn.InsertRow | game/src/spawn.rs:19-567 | inserting a prefab's components into an entity with none gives it exactly those components and leaves every other entity and the player table alone |
| Spawn.InsertRowKeepsTablesBelow | game/src/spawn.rs:19-567 | an entity not yet allocated has no components, and after insertion every table mentions only allocated entities |
| Spawn.PrefabTiles | game/src/spawn.rs:19-567 | prefabs on the floor or feature layer have a tile; exactly walls, ruined walls, doors and windows are walls; exactly floor and ground are walkable floor; walls and doors are opaque, trees half, grass a little |
| Spawn.SpawnedQueries | game/src/world.rs:38-93 | at a spawned prefab's coordinate, the wall, floor and opacity queries answer as its kind dictates |
| Spawn.SpawnedTables | game/src/spawn.rs:19-567 | spawning keeps the spatial table well formed with every entity allocated, inserts exactly the prefab's row for the new entity, leaves the player table alone and shows the prefab's tile at its slot |
| Spawn.Spawn | game/src/spawn.rs:19-567 | spawning allocates the next entity at the coordinate on the prefab's layer, adds exactly the prefab's components, changes only that slot's tile, and the world stays valid |
| Spawn.PrefabLightsDim | game/src/spawn.rs:122-533 | every light a prefab carries has a positive radius and a positive diminish ratio |
| Spawn.SpawnedDoorIsClosed | game/src/spawn.rs:88-105 | a spawned door is closed, and opening then closing it restores it |
| Spawn.SpawnedWaterIsWater | game/src/spawn.rs:141-154 | spawning water gives the same components as making the entity water; lake water also marks the lake |
| Spawn.SpawnedLampIsLit | game/src/spawn.rs:257-274 | after the lamps are switched on, a spawned lamp carries the lamp light and tile |
| Terrain.LineEnd | game/src/terrain.rs:22 | the first line ends at the first newline, or at the end of the text |
| Terrain.RowsAreLines | game/src/terrain.rs:22 | the rows are non-empty and contain no newline |
| Terrain.RowsKeepText | game/src/terrain.rs:22 | splitting into rows loses nothing but newlines: the rows joined back are the text without its newlines |
| Terrain.ByteLen | game/src/terrain.rs:23 | a string's byte length lies between its character count and four times that, and equals it for ASCII |
| Terrain.GridSize | game/src/terrain.rs:23 | both dimensions fit 16 bits, and the height is the row count when that fits |
| Terrain.FloorPrefab | game/src/terrain.rs:34-112 | a character puts something on the floor layer exactly when it spawns anything |
| Terrain.UpperPrefab | game/src/terrain.rs:34-112 | what a character puts above the floor lies on the feature, item or no layer, and only for spawning characters other than '@' |
| Terrain.LastIsWallMeans | game/src/terrain.rs:27-113 | the parser's wall flag holds exactly when some '#' is followed only by control characters |
| Terrain.DoorAxisFollowsWall | game/src/terrain.rs:79-94 | a door or window lies along Y exactly when a '#' before it is followed only by control characters, and along X otherwise |
| Terrain.ParseCell | game/src/terrain.rs:29-113 | parsing one character fails with out-of-bounds exactly when a spawning character lies off the grid, and with second-player exactly when an in-grid '@' follows a placed player; otherwise it shows the character's stack at that cell only and keeps every placed entity, and the new entities all stand in that cell, each in its own location, with the components the character gives their layer, an 'L' or 'M' cell getting a layerless entity |
| Terrain.PlacePlayer | game/src/terrain.rs:98-105 | the player cell shows ground with the player's own tile above it, and the new entity is the player on the character layer |
| Terrain.PlaceStack | game/src/terrain.rs:35-97 | any other cell shows its floor and what stands on it, and nothing else changes |
| Terrain.ParseChar | game/src/terrain.rs:29-113 | reading one character skips control characters, fails with the cause of the first bad character, and otherwise extends what the cells read so far show by that character |
| Terrain.ParseRow | game/src/terrain.rs:29-114 | after a row, every cell read so far shows what the text says, and the player is placed exactly when an '@' was read |
| Terrain.ParseRows | game/src/terrain.rs:28-115 | after every row, each cell shows what the text says and the player is placed exactly when an '@' was read; the first error names its row's cause |
| Terrain.FromStr | game/src/terrain.rs:21-118 | the parse succeeds exactly when there are rows, every spawning character lies inside the grid and there is exactly one '@'; each error names its cause; on success every cell shows what its character spawns, the player stands on the '@', and every entity stands in a cell of the text, alone in its location, with exactly the components its character gives its layer |
| Terrain.CellRow | game/src/terrain.rs:34-112 | a character gives light only to the layerless entity of an 'L' or 'M' cell, which carries the house light, or to the player on the '@' cell's character layer, which carries the player's own light |
| Terrain.PlacedCellStep | game/src/terrain.rs:29-113 | placing one cell's entities extends the placement invariant by that cell: entities stand in cells read so far, alone in their location, with their character's components, and every house-light cell read has its light |
| Terrain.TerrainLights | game/src/terrain.rs:21-118 | in a parsed world every light belongs to the layerless entity of an 'L' or 'M' cell, with the house light and the house-light marker, or to the player on the '@' cell; every 'L' or 'M' cell in the grid has exactly such a house light |
| Visibility.Classify | game/src/visibility.rs:83-96 | currently visible exactly when seen this generation, with its light exactly when also lit; else never visible exactly when never seen; else previously visible |
| Visibility.DefaultNeverVisible | game/src/visibility.rs:61-77 | a fresh cell is never visible |
| Visibility.SeenIsLit | game/src/visibility.rs:164-273 | under the generation invariant no cell is currently visible without a light colour |
| Visibility.BoundedNext | game/src/visibility.rs:164 | moving the counter on keeps the generation invariant |
| Visibility.SnapshotShowsWorld | game/src/visibility.rs:175-269 | a snapshot shows, layer by layer, nothing on an empty layer, the occupant with its tile, or the remembered entry when the occupant has no tile |
| Visibility.SnapshotIdempotent | game/src/visibility.rs:175-203 | taking the same snapshot twice equals taking it once |
| Visibility.OmniscientCell | game/src/visibility.rs:169-203 | an omniscient cell is currently visible in full white and satisfies the generation invariant |
| Visibility.AmbientCell | game/src/visibility.rs:212-218 | the viewer's step keeps what was last seen and remembered, and keeps the generation invariant |
| Visibility.Contribution | game/src/visibility.rs:233-238 | a light never adds more than its own colour to a cell |
| Visibility.ContributionAtSource | game/src/visibility.rs:233-238 | at full visibility a light lights its own cell in its own colour |
| Visibility.LightEffectTransitive | game/src/visibility.rs:221-273 | the allowed effect of light steps composes, so a run of lights has an allowed effect |
| Visibility.LightCell | game/src/visibility.rs:228-271 | a light acts only on a cell reached this generation from a shared direction, adds its contribution there, never darkens, snapshots and marks seen only when bright enough, and does snapshot and mark seen whenever it reaches such a cell brightly enough |
| Visibility.LightEffectKeepsSeen | game/src/visibility.rs:240-270 | once a cell has been marked seen with the current snapshot, later lights keep it so |
| Visibility.LightPassSees | game/src/visibility.rs:222-272 | a light whose field of view hits a cell the viewer reached, from a shared direction and brightly enough, leaves that cell seen this generation with the world's current tiles |
| Visibility.LightingSees | game/src/visibility.rs:221-275 | the same holds after all the lights: any one such light suffices |
| Visibility.AmbientPassCell | game/src/visibility.rs:206-219 | the viewer's pass stamps exactly the cells it reaches and leaves every other cell untouched and every memory alone |
| Visibility.LightPassCell | game/src/visibility.rs:221-273 | one light's pass has an allowed effect on every cell |
| Visibility.LightingCell | game/src/visibility.rs:221-275 | all the lights together have an allowed effect on every cell |
| Visibility.UpdateKeepsBounds | game/src/visibility.rs:157-276 | an update keeps the generation invariant |
| Visibility.OmniscientSeesAll | game/src/visibility.rs:167-275 | in omniscient mode every cell ends currently visible in full white |
| Visibility.UnreachedCellKept | game/src/visibility.rs:205-275 | otherwise a cell the viewer does not reach ends exactly as it was |
| Visibility.ReachedAndLitIsSeen | game/src/visibility.rs:205-275 | a cell the viewer reaches and a bright light reaches from a shared direction ends currently visible with its light colour and remembers the world's current tiles |
| Visibility.UpdateRefreshesMemory | game/src/visibility.rs:240-270 | an update moves `last_seen` only to the new generation, and changes the remembered tiles only to the world's current ones, together with marking them seen |
| Visibility.OmniscientPass | game/src/visibility.rs:167-204 | the loop leaves the cells equal to the omniscient pass |
| Visibility.AmbientPass | game/src/visibility.rs:205-219 | the loop leaves the cells equal to the viewer's pass |
| Visibility.LightPass | game/src/visibility.rs:222-272 | the loop leaves the cells equal to one light's pass |
| Visibility.Lighting | game/src/visibility.rs:221-275 | the loop leaves the cells equal to every light's pass in turn |
| Visibility.LightList | game/src/world.rs:46-55 | the lights are listed in the given order, each with its coordinate and light |
| Visibility.VisibilityGrid.constructor | game/src/visibility.rs:112-117 | a new grid is at generation 1 with every cell default, so every coordinate is never visible |
| Visibility.VisibilityGrid.GetCell | game/src/visibility.rs:124-126 | a cell exists exactly inside the grid |
| Visibility.VisibilityGrid.CellVisibility | game/src/visibility.rs:127-144 | never visible off the grid, exactly the cell's classification on it, and never visible without light |
| Visibility.VisibilityGrid.IsCoordCurrentlyVisible | game/src/visibility.rs:145-150 | true exactly inside the grid where the cell was seen this generation |
| Visibility.VisibilityGrid.IsCoordNeverVisible | game/src/visibility.rs:151-156 | true exactly off the grid or where the cell was never seen |
| Visibility.VisibilityGrid.Update | game/src/visibility.rs:157-276 | the counter moves on by one, the cells become the full update of the old cells, and the generation invariant is kept |
| Rgb.ScalarDiv | game/src/visibility.rs:236 | dividing a colour never brightens a channel |
| Rgb.NormalisedScalarMul | game/src/visibility.rs:237-239 | scaling by a visibility byte never brightens a channel, and full visibility keeps the colour |
| Rgb.SaturatingAdd | game/src/visibility.rs:237-239 | the sum is no darker than either operand in any channel |
| Rgb.SaturatingChannelTotal | game/src/visibility.rs:240 | the saturated total exceeds 31 exactly when the channel sum does |
| Rgb.TotalMonotone | game/src/visibility.rs:240 | a colour no darker than another has no smaller channel total |
| Rgb.WhiteAbsorbs | game/src/visibility.rs:174-239 | adding light to full white leaves full white |
| Rain.FallingLands | app/src/rain.rs:88-96 | a falling drop lands after exactly its remaining count plus one ticks, that many steps along, as a splash |
| Rain.SplashRespawns | app/src/rain.rs:97-106 | a splash respawns after exactly its remaining count plus one ticks, at the top row of the drawn column, falling |
| Rain.TickDropInFlight | app/src/rain.rs:86-107 | a tick keeps a drop within the rows and columns the rain occupies |
| Rain.TickedDrops | app/src/rain.rs:86 | only the first `num_drops` drops move |
| Rain.Rain.constructor | app/src/rain.rs:44-74 | every drop starts falling at its drawn column, row and count; the hide table matches the world's rain-hiding query |
| Rain.Rain.Tick | app/src/rain.rs:76-109 | while the interval counts down nothing moves; when it runs out it resets and every active drop takes one tick |
| Rain.Rain.DrawOf | app/src/rain.rs:119-153 | a drop is drawn exactly when its world cell is not hidden, has been seen and lies in the view; the colour is the rain colour exactly when the cell is visible now; the glyph follows the drop's state |
| Rain.Rain.DrawsOf | app/src/rain.rs:119-153 | every drawable drop is drawn, in view, in one of the two rain colours |
| Rain.Rain.DrawsOfDrawn | app/src/rain.rs:119-153 | every draw comes from a drawable drop |
| Rain.Rain.DrawsOfAppend | app/src/rain.rs:111-155 | drawing two runs of drops draws the first run's cells and then the second's, so the draws keep the drops' order |
| Rain.Rain.DrawsOfOne | app/src/rain.rs:119-153 | one drop is drawn exactly when it is drawable, as its own draw |
| Rain.Rain.Render | app/src/rain.rs:111-155 | the loop draws exactly the drawable active drops, in drop order |
| Examine.VerbOf | app/src/examine.rs:14-19 | "see" exactly for a visible lit cell, "remember" exactly for a cell seen before, none otherwise |
| Examine.TileStr | app/src/examine.rs:54-69 | a tile has a label exactly when the table lists it, and only the player's tile has a literal label |
| Examine.SharedNames | app/src/examine.rs:54-69 | doors of either state and axis, both walls, both floors and the three trees share one name, and ground is not floor |
| Examine.TopTile | app/src/examine.rs:20-33 | the described tile is the item, else the character, else the feature, else the floor, each case stated; none exactly when all are empty |
| Examine.ExamineOf | app/src/examine.rs:10-47 | a message exists only for a cell with a verb and a labelled top tile |
| Examine.ExamineMessages | app/src/examine.rs:35-46 | a named tile reads "You see X here." when visible and lit, "You remember seeing X here." when seen before, the player reads "It's you!", and a never-seen cell says nothing |
| Examine.ExamineCell | app/src/examine.rs:10-47 | the method's layer-by-layer overwrite gives the message above, and nothing off the grid |
| Witness.HandleControlFlow | game/src/witness.rs:50-60 | no control flow keeps running; each control flow leads to its own witness, and a prompt keeps its message |
| Witness.HandleControlFlowResult | game/src/witness.rs:63-71 | a failed action keeps running and passes the error on; a successful one follows its control flow |
| Witness.Tick | game/src/witness.rs:74-81 | a tick keeps running unless it raises a prompt, which keeps its message |
| Witness.PlayerWait | game/src/witness.rs:115-121 | waiting follows its control flow and cannot fail |
| Witness.SleepCancel | game/src/witness.rs:148-150 | declining to sleep resumes the game |
| Witness.SleepCommit | game/src/witness.rs:152-162 | sleeping wins exactly when the game is then won, and otherwise shows the sleep prompt |
| Witness.PromptRunning | game/src/witness.rs:176-178 | acknowledging a prompt resumes the game |
| Witness.PromptRoundTrip | game/src/witness.rs:43-182 | a prompt from an action or a tick carries its message through unchanged, and acknowledging it resumes the game |
| Witness.TransitionsAreSteps | game/src/witness.rs:26-192 | the sleep prompt's cancel and commit and a prompt's dismissal are steps of the state machine; a tick never wins or ends the game, and committing to sleep never ends it |
| Controls.GetInput | app/src/controls.rs:71-77 | a key or button is bound exactly when its table has it, to the table's action; mouse input is never bound |
| Controls.GetDirection | app/src/controls.rs:79-84 | the direction is d exactly when the input is bound to a plain move in d |
| Controls.GamepadIdIgnored | app/src/controls.rs:74 | which gamepad sent a button does not matter |
| Controls.DefaultDirectionBindings | app/src/controls.rs:29-40 | by default exactly the arrow, WASD and HJKL keys of a direction move one step that way |
| Controls.DefaultLongBindings | app/src/controls.rs:41-48 | the upper-case form of each direction letter moves far the same way |
| Controls.DefaultActionKeys | app/src/controls.rs:49-55 | each other action has exactly one key by default |
| Controls.DefaultGamepadDirections | app/src/controls.rs:57-61 | by default exactly the D-pad buttons move, on any gamepad: left West, right East, up North, down South |
| Controls.DefaultGamepadActions | app/src/controls.rs:62-64 | by default Select waits, the north button gets and the right bumper examines, and no other button does these |
| Fields.Grid.Get | app/src/fields.rs:25-27 | a cell exists exactly inside the grid, at its row-major index |
| Fields.Transpose | app/src/fields.rs:115-119 | the transposed grid has the dimensions swapped, and every cell is the original's at the swapped coordinate |
| Fields.TransposeInvolution | app/src/fields.rs:115-119 | transposing twice gives the grid back |
| Fields.CandidatesBelow | app/src/fields.rs:18-20 | the list holds exactly the values below n with five or six set bits, in increasing order |
| Fields.CandidatesExact | app/src/fields.rs:18-21 | the candidates are exactly the values from 0 to 512 with five or six set bits, and there is at least one, so the choice cannot fail |
| Fields.NewTeaField | app/src/fields.rs:17-23 | every cell of a new tea field is a candidate |
| Fields.TeaGet | app/src/fields.rs:25-27 | a pattern exists exactly inside the field, and it is a candidate |
| Fields.GroundChoose | app/src/fields.rs:43-60 | exactly the middle of each 3x3 block shows the centre glyph in the full colour; others show the drawn ground glyph at half the colour; the background is a fifth of the colour and never brighter than the foreground |
| Fields.GroundCellRanges | app/src/fields.rs:44-58 | with the colour in its drawn ranges, background and foreground channels lie in their derived ranges |
| Fields.NewGroundField | app/src/fields.rs:61-65 | the ground field is three times the map each way, and each cell is the choice for its coordinate |
| Fields.GroundBlock | app/src/fields.rs:48-65 | each map cell owns a 3x3 block, and exactly its middle shows the centre glyph |
| Fields.CountStep | app/src/fields.rs:100-109 | the counter reaches zero exactly before a new colour is drawn; it restarts at 10 then and counts down otherwise |
| Fields.RunStartsClosedForm | app/src/fields.rs:100-109 | the number of colours drawn in a row up to a cell is one, plus one per eleven cells after the first run |
| Fields.NextRunStart | app/src/fields.rs:100-109 | after a run start the next one comes exactly one run later: 6 or 11 cells for a row's first run, 11 after that |
| Fields.RunSharesColour | app/src/fields.rs:99-111 | every cell of a run shows the colour drawn at its start |
| Fields.FillRow | app/src/fields.rs:97-111 | the loop fills a row with the draw of each cell's run and consumes exactly the row's draws |
| Fields.NewHorizontal | app/src/fields.rs:96-112 | each cell of the grid shows the draw its run takes, counted across rows |
| Fields.NewLogField | app/src/fields.rs:113-124 | the horizontal grain is 3w by 6h and the vertical 6w by 3h, runs going down its columns and taking the draws that follow; log-coloured draws give log-coloured cells |
| Fields.NewVertical | app/src/fields.rs:115-119 | the vertical grain is 6w by 3h, and each cell holds the draw its run takes on the 3h by 6w grid, read with the coordinates exchanged |
| Fields.VerticalGrain | app/src/fields.rs:115-119 | transposing the grain generated on the 3h by 6w grid gives the 6w by 3h grid with every cell's draw read at the swapped coordinate |
| Fields.GetHorizontal | app/src/fields.rs:125-127 | a colour exists exactly inside the horizontal grain |
| Fields.GetVertical | app/src/fields.rs:128-130 | a colour exists exactly inside the vertical grain |

## Left out

- Random number generation is not modelled. Every random choice is an input instead:
  - the tree variant and water colour per cell;
  - a drop's initial and respawn draws per drop index;
  - tea picks, ground draws and log colours per cell or per draw;
  - the drawn colour for water.

  The source draws these from one sequential generator. The model assumes the draws lie in the ranges the source asks for.
- Shadowcasting is an external library. It is a parameter `fov` that returns the reached cells with their directions and visibility byte. The order of the world's light table is an input `order`.
- Integer widths are not modelled; the model's integers are unbounded. This covers:
  - the u64 generation counter;
  - the u32 counters of rain drops;
  - the i32 squared distances;
  - the `size * 3` and `size * 6` products.

  The u16 casts of the map size are modelled explicitly.
- Heights are `f64` in the source. Here they are mathematical reals, so the NaN that would make the sort panic cannot occur.
- Visibility.VisibilityGrid.Update: the omniscient switch is a boolean and the viewer radius a constant. The shadowcast context is the `fov` parameter.
- The realtime flicker animation of water is left out, along with the other realtime components and durations.
- Rendering is left out: the frame buffer, the render context, bold text and alpha. Rain rendering returns the list of drawn cells instead. `GroundField::render` is left out.
- Examine.TileStr: tiles the label table does not list have no label, so examining them says nothing.
- Controls: keyboard and gamepad inputs are abbreviated. A catch-all constructor stands for every key or button the bindings do not use, and the mouse event's payload is dropped.
- Witness: the game itself is not modelled. What an action, tick or sleep returns is an input to each transition. The other player actions (dig, toggle pushing, toggle lantern, get, wait long, walk, walk until collide) are exactly `HandleControlFlowResult` or `HandleControlFlow` applied to the game's result, so they are covered by those two members.
- Witness.PromptMessage returns the prompt's message. It has no contract of its own; `Witness.PromptRoundTrip` states its round trip.
- Panics become errors or preconditions:
  - In the map parser, a panic becomes a `ParseError`.
  - An `unwrap` on a spatial update becomes a precondition that the slot is free and inside the grid.
  - A door operation on a non-door becomes a precondition.
  - A rain slice beyond the drop capacity becomes a precondition.
  - The light pass divides by each light's diminish denominator, which panics on zero; `VisibilityGrid.Update` requires every denominator to be positive. `Spawn.PrefabLightsDim` and `Components.MakePlayer` show that every light the game creates meets this.
- Logging is left out: the map parser's warning on an unknown character, and any other log output, are not modelled.
- The entity allocator is a counter `next`. Generations and reuse of entity ids are not modelled.
- The end-of-pier component has no prefab in the spawn code, so it is not modelled. Pushable rocks and the crowbar appear in the spawn code and are modelled.
