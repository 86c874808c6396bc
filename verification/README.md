# minecraft-ca-go in Dafny

A model of the discrete core of minecraft-ca-go, a Minecraft-style redstone
simulator written in Go, with proofs about that model. The repository
simulates redstone torches, lamps, levers, redstone blocks and wool in a
16x16x16 world as a cellular automaton. It also has a 2D prototype of the
torch automaton, a fixed-rate game loop, and a software rasteriser.
The model covers the parts of that code that run on integers, enumerations
and lists.

One Dafny module per source file or concern:

- `Redstone2D` (redstone2d.dfy) covers core2/main.go.
  - The direction and block rules are functions over closed datatypes of the four named direction codes and the ten named block codes.
  - The two-buffer `State` is a class over two arrays; the buffer in use is chosen by the parity of `Iteration`.
  - `UpdateBlocks` is proved against a next-generation function, and `RunIterations` against an iteration limit of 200.
- `Vectors` and `Directions` cover core/vector.go and core/direction.go.
- `Blocks` covers core/block.go and the five block types. The block is a closed datatype, and its capabilities are derived from the methods each Go type defines.
- `Cells`, `BlockUpdates` and `WorldModel` cover core/world.go.
  - The grid is indexed by `GetIndex`.
  - The torch `Update` is a function. The lamp `Update` is a method with its six-direction loop and early break.
  - The class `World` has `SetBlock` and `UpdateWorld`.
- `UserInput` covers core/user_input.go: `createWorld` and `ProcessUserInputs`.
- `Game` and `Colors` cover the enums in core/game.go and core/color.go.
- `GameLoop` covers core/game_loop.go: the statistics, one decision step of `RunGameLoop`, and the scene `Update`.
- `LoopManager` covers core/game_loop_manager.go.
- `Utils` and `GoStrings` cover `ToSnakeCase` and the Go library string functions it and the OBJ parser rely on.
- `Obj` covers the line parser of core/obj.go.
- `Geometry` covers the cuboid vertex and edge tables and `Move` from core/render_3d.go.
- `Bresenham`, `Render3D` and `TriScratch` cover the raster primitives.
  - `Bresenham` is the shared line walk, in its inclusive and strict variants.
  - `Render3D` covers `DrawBox2D`, `DrawLine` and `GetSortedBlockPositions`.
  - `TriScratch` covers samples/triscratch.go.
- `Render2D` covers core/render_2d.go: the chequer board, the nearest-neighbour upscale, and the tile atlas layout of `GenerateTilemap`.
- `GoInt`, `Canvas` and `Wrappers` are support modules.
  - `GoInt` provides Go's truncating `/` and `%`.
  - `Canvas` is an `image.RGBA` as a 2D array.
  - `Wrappers` provides `Option` and `Result`. A Go panic or returned error becomes a `Failure` or a `None`.

Some source behaviour is modelled as the code does it, even where names or comments suggest otherwise:

- `Vec3.InRange` is true when the point lies outside the box. `GetBlock` and `SetBlock` rely on that meaning, and `Vectors.InRange` states it.
- `Front` maps to +z in `ToVec3`, whatever the comment next to the constant says.
- `MakeAxisAlignedCuboid` is modelled by its three-argument definition in core/render_3d.go. The block files call it with four arguments.

## Model

| member | source | states |
|---|---|---|
| BlockUpdates.TorchUpdate | core/redstone_torch.go:23-37 | a torch stays a torch with the same direction; the flag is set exactly when its lit state changed |
| BlockUpdates.TorchUpdateRule | core/redstone_torch.go:23-37 | the torch is lit when the block it hangs from is air (no power emitter), unlit behind a redstone block, lit iff a lever behind it is off, and in general lit iff the block behind it does not power it in the torch's direction; updated iff the block changed |
| BlockUpdates.LampInput | core/redstone_lamp.go:33-51 | reference input of a lamp: Strong iff some side gives strong power in its direction, Weak iff none gives strong and some gives weak |
| BlockUpdates.AnyStrongPrefix | core/redstone_lamp.go:37-45 | the strong scan over the first n sides finds exactly the sides among them that give strong power |
| BlockUpdates.AnyWeakPrefix | core/redstone_lamp.go:46-51 | the weak scan over the first n sides finds exactly the sides among them that give weak power |
| BlockUpdates.ScanCoversAllSides | core/redstone_lamp.go:37-51 | scanning the six sides in declaration order finds a strong (weak) side exactly when one exists |
| BlockUpdates.LampUpdate | core/redstone_lamp.go:33-56 | the loop with its early break yields the lamp with the reference input of all six sides; the flag is set iff the lamp changed |
| BlockUpdates.UpdateAtChanges | core/world.go:36-43 | an update is reported iff the block changes; blocks without `Update` are carried over with no update; torches stay torches with their direction, lamps stay lamps |
| BlockUpdates.NextCells | core/world.go:45-61 | every cell of the next world is the update of that cell against the old world only |
| BlockUpdates.VisitPosition | core/world.go:48-50 | the k-th position of the x, y, z loop nest is in the grid and has visiting ordinal k |
| BlockUpdates.VisitOrdinalDecodes | core/world.go:48-50 | every grid position is visited once, at ordinal x*256+y*16+z in [0,4096) |
| BlockUpdates.UpdateFlags | core/world.go:48-55 | one flag per visited position, in visiting order, each the update flag of that position |
| BlockUpdates.CountTrueZero | core/world.go:52-54 | the update count is zero iff no flag is set |
| BlockUpdates.NoUpdatesIffFixedPoint | core/world.go:45-61 | `UpdateWorld` reports zero updates exactly when the next world equals the current one |
| Blocks.RedstoneBlockOutputs | core/redstone_block.go:12-18 | a redstone block outputs power and strong power in every direction, has no weak output and no `Update` |
| Blocks.TorchOutputs | core/redstone_torch.go:39-49 | a torch outputs power iff lit and d is not opposite its direction, strong power iff lit and d is Up, never weak and strong together, weak only where it outputs |
| Blocks.TorchStrongWithoutPower | core/redstone_torch.go:39-45 | a lit torch reports strong power without general power exactly for a downward torch queried Up |
| Blocks.LampOutputs | core/redstone_lamp.go:21-31 | a lamp outputs power iff its input is not None, strongly iff Strong, weakly iff Weak, in every direction |
| Blocks.LeverOutputs | core/lever.go:14-20 | a lever outputs power iff on, strong power iff on and d is the opposite of its direction; strong implies outputs; no weak output, no `Update` |
| Blocks.LeverStrongUnique | core/lever.go:18-20 | a lever gives strong power in at most one direction |
| Blocks.WoolOutputs | core/wool_block.go:18-28 | wool outputs power and weak power iff its input is Strong, never strong power, and has no `Update` |
| Blocks.IsOpaque | core/wool_block.go:48-50 | wool is opaque in every direction |
| Blocks.WoolSubUpdate | core/wool_block.go:30-35 | wool takes the new input type and keeps its colour; updated iff the block changed |
| Blocks.ToRune | core/redstone_torch.go:51-57 | a rune exists exactly for torch, lamp and redstone block |
| Blocks.TorchRune | core/redstone_torch.go:51-57 | a torch's rune is 'T' iff lit and 't' iff unlit |
| Blocks.RedstoneBlockCuboids | core/redstone_block.go:24-32 | one unit cuboid from the origin to (1,1,1), coloured (255,0,0,255) |
| Blocks.LampColor | core/redstone_lamp.go:66-76 | alpha 255; (219,171,115) iff the lamp is powered, (95,59,34) iff not |
| Blocks.LampCuboids | core/redstone_lamp.go:66-84 | one unit cuboid in the lamp's colour |
| Blocks.TorchTexture | core/redstone_torch.go:62-69 | the texture is "redstone_torch" iff the torch is lit |
| Blocks.LeverTilt | core/lever.go:29-34 | the stick tilts +45 or -45 degrees, positive iff the lever is on |
| Blocks.LeverRotation | core/lever.go:49-63 | only Back rotates about y |
| Blocks.LeverRotationInjective | core/lever.go:49-63 | the six directions select six different rotations |
| Blocks.LeverCuboids | core/lever.go:22-47 | two cuboids, the grey stone base first and the wooden stick second |
| Blocks.WoolTexture | core/wool_block.go:37-45 | the texture name ends in "_wool" |
| Blocks.WoolTextureLightBlue | core/wool_block.go:43 | light blue wool uses "light_blue_wool" |
| Blocks.WoolCuboids | core/wool_block.go:37-46 | one unit cuboid in the palette colour of the wool |
| Bresenham.StartOnTrack | core/render_3d.go:35-45 | the pen at the start point with error dx - dy satisfies the walk invariant |
| Bresenham.AtEndIff | core/render_3d.go:50-52 | on the walk, the pen is at the end point iff it has gone all dx columns and all dy rows |
| Bresenham.ColumnsDone | core/render_3d.go:53-57 | with all columns gone and rows left, 2 err <= -2 dy, so x is not stepped again |
| Bresenham.RowsDone | core/render_3d.go:58-61 | with all rows gone and columns left, err >= dx, so y is not stepped again |
| Bresenham.AdvanceOnTrack | core/render_3d.go:53-61 | one pass off the end point keeps the invariant, moves each axis by 0 or its step toward the end, moves at least one, and shortens what remains (termination) |
| Bresenham.Path | core/render_3d.go:47-62 | the walk from a pen starts at that pen's pixel |
| Bresenham.PathUnfold | core/render_3d.go:47-62 | off the end point, the walk is the current pixel followed by the walk from the advanced pen |
| Bresenham.PathEnds | core/render_3d.go:50-52 | the last pixel of the walk is the end point |
| Bresenham.PathSteps | core/render_3d.go:53-61 | consecutive pixels differ, and each axis moves by 0 or by its step toward the end point |
| Bresenham.PathProgress | core/render_3d.go:47-62 | every pixel stays between the pen and the end point in columns and rows, and later pixels have gone strictly further |
| Bresenham.PathDistinct | core/render_3d.go:47-62 | no pixel is visited twice |
| Bresenham.PixelsInBox | samples/triscratch.go:12-40 | every pixel of the line lies in the bounding box of its two end points |
| Bresenham.PixelsEnds | core/render_3d.go:47-62 | the line starts at (x0,y0), ends at (x1,y1), and has at most dx + dy + 1 pixels |
| Bresenham.PathLength | core/render_3d.go:47-62 | the walk has at most one pixel more than the columns and rows that remain |
| Canvas.Set | core/render_2d.go:54 | `image.RGBA.Set`: the pixel is written when it is inside the image, and no other pixel changes |
| Cells.IndexInGrid | core/world.go:13-15 | `GetIndex` maps every grid position into [0,4096) |
| Cells.IndexDecodes | core/world.go:13-15 | x, y and z are recovered from the index by remainder and quotient by 16 |
| Cells.IndexInjective | core/world.go:13-15 | two grid positions have the same index iff they are equal |
| Cells.PositionOf | core/world.go:13-15 | every index in [0,4096) is the index of a grid position |
| Cells.PositionOfIndex | core/world.go:13-15 | decoding the index of a grid position gives the position back |
| Cells.BlockAt | core/world.go:17-26 | `GetBlock` is air outside the grid (where `InRange` holds) and the stored cell inside it |
| Cells.BlockAtAfterStore | core/world.go:28-33 | after storing b at a grid position p, `GetBlock` gives b at p and the old block everywhere else |
| Colors.Code | core/color.go:10-27 | every colour constant is in [0,16) |
| Colors.FromCode | core/color.go:10-27 | a value is a colour constant iff it is in [0,16) |
| Colors.String | core/color.go:49-87 | `String` is "Unknown" exactly for values outside the sixteen constants |
| Colors.Palette | core/color.go:30-47 | every entry of the `Colors` table has alpha 255 |
| Colors.ToRGBA | core/color.go:89-92 | alpha is 255 iff the value is one of the sixteen constants; a value missing from the table gives the zero RGBA |
| Colors.NameNotUnknown | core/color.go:49-87 | no constant is named "Unknown" |
| Colors.CodeRoundTrip | core/color.go:10-27 | code and constant convert back and forth without loss |
| Colors.NameInjective | core/color.go:49-87 | different constants have different names |
| Colors.NameSpaces | core/color.go:49-87 | exactly "Light Blue" and "Light Gray" contain a space |
| Colors.PaletteComplete | core/color.go:30-47 | the table has an entry for each constant, and `ToRGBA` returns it |
| Directions.Ordinal | core/direction.go:5-12 | the six constants are 0..5 in declaration order |
| Directions.FromOrdinal | core/direction.go:5-12 | a value is a direction iff it is in [0,6), and it converts back to itself |
| Directions.Opposite | core/direction.go:18-35 | the opposite of a direction is never the direction itself |
| Directions.ToVec3 | core/direction.go:37-54 | the vector has exactly one non-zero component, equal to 1 or -1 |
| Directions.MoveIsNeighbour | core/vector.go:39-41 | `Move` changes exactly one coordinate by exactly 1 |
| Directions.OppositeInvolution | core/direction.go:18-35 | the opposite of the opposite is the direction |
| Directions.ToVec3OfOpposite | core/direction.go:18-54 | the vector of the opposite is the negated vector |
| Directions.ToVec3Injective | core/direction.go:37-54 | different directions have different vectors |
| Directions.MoveInjective | core/vector.go:39-41 | a move always leaves the position, and different directions lead to different positions |
| Directions.NameInjective | core/direction.go:14-16 | different directions have different names |
| Directions.OrdinalRoundTrip | core/direction.go:5-16 | each direction converts to its ordinal and back |
| Directions.MoveThenMoveBack | core/vector.go:39-41 | moving in d and then in the opposite of d returns to the start; `Move` adds the direction's vector |
| Game.Code | core/game.go:5-10 | every state is in [0,4) |
| Game.FromCode | core/game.go:5-10 | a value is a state iff it is in [0,4), and it converts back to itself |
| Game.String | core/game.go:13-26 | `String` succeeds exactly for 0..3 and fails (the panic) for any other value |
| Game.CodeRoundTrip | core/game.go:5-10 | each state converts to its value and back |
| Game.NameInjective | core/game.go:13-26 | different states have different names |
| Game.Codes | core/game.go:5-26 | Quit=0, Paused=1, Playing=2 and Pausing=3, each with its own name |
| GameLoop.EventCount | core/game_loop.go:22-24 | with non-negative counters, the event count bounds both counts and is zero only when both are |
| GameLoop.AvgSleepDuration | core/game_loop.go:26-32 | zero when no event has run |
| GameLoop.AvgUpdateOvershoot | core/game_loop.go:34-39 | zero when no update has run |
| GameLoop.AvgRenderOvershoot | core/game_loop.go:41-46 | zero when no render has run |
| GameLoop.Average | core/game_loop.go:26-46 | zero for a zero count; otherwise the quotient truncated toward zero, bracketed by total on both sides for positive and negative totals |
| GameLoop.FixedRateLoop.constructor | core/game_loop.go:97-102 | the intervals are stored, both last-call times start one interval before their clock reading, and the statistics are zero |
| GameLoop.FixedRateLoop.Step | core/game_loop.go:109-151 | update fires iff its overshoot exceeds the render overshoot and is non-negative (ties go to render); the fired branch sets its last-call time to now minus the overshoot clamped by the update interval and adds the clamped overshoot; otherwise sleep = min(-uo,-ro) - undershoot is taken when positive, counted as no-sleep otherwise; iterations grow by one with exactly one counter, so the counters stay balanced |
| GameLoop.ClampedDue | core/game_loop.go:119-128 | after firing, the next due time lies between now and now + interval |
| GameLoop.SubUpdateRounds | core/game_loop.go:210-219 | the sub-update loop ends after at most 50 rounds |
| GameLoop.SubUpdatesStopAtRest | core/game_loop.go:212-217 | a world with no sub-update stops after round zero, unchanged |
| GameLoop.SubUpdateTotal | core/game_loop.go:212-219 | every completed round adds at least one sub-update to the total |
| GameLoop.SubUpdateLoop | core/game_loop.go:210-221 | the loop computes the round count, the world and the total that the recursive definition gives |
| GameLoop.Advance | core/game_loop.go:204-226 | one step: scripted input, up to 50 sub-update rounds, then one `UpdateWorld`; the update count is the input's 1 plus the world's updates |
| GameLoop.Scene.constructor | core/game_loop.go:197-237 | a scene starts at iteration 0 with zero step counters |
| GameLoop.Scene.Update | core/game_loop.go:197-237 | outside Playing and Pausing nothing changes; otherwise the world advances one step, the counters record it, the iteration grows by one and Pausing becomes Paused |
| LoopManager.CreateGameEvent | core/game_loop_manager.go:31-37 | the event has its name and period, and every counter and time at zero |
| LoopManager.Refresh | core/game_loop_manager.go:73-76 | delta = now - last call and overshoot = delta - period; nothing else changes |
| LoopManager.RefreshAll | core/game_loop_manager.go:72-82 | every event is refreshed |
| LoopManager.Pick | core/game_loop_manager.go:69-82 | the index is -1 with overshoot -1, or a valid index whose overshoot is returned |
| LoopManager.PickIsFirstMax | core/game_loop_manager.go:69-84 | no event is picked iff every overshoot is negative; the pick has a non-negative overshoot, strictly above every earlier one and at least every later one |
| LoopManager.TimeTillNext | core/game_loop_manager.go:97-104 | the wait never exceeds 1e12 |
| LoopManager.TimeTillNextIsLeast | core/game_loop_manager.go:97-104 | the wait is at most every -overshoot and equals 1e12 or one of them; when none is due it is at least 1 |
| LoopManager.Fire | core/game_loop_manager.go:88-93 | firing changes only the last-call time, the call count and the elapsed overshoot |
| LoopManager.FiredIsDueWithinPeriod | core/game_loop_manager.go:88-93 | after firing, the next due time is within one period of now, the call count grows by one and the elapsed overshoot by at most the period |
| LoopManager.CallCountsUpdate | core/game_loop_manager.go:88-93 | replacing one event changes the sum of call counts by that event's difference only |
| LoopManager.CallCountsRefresh | core/game_loop_manager.go:72-82 | refreshing leaves the sum of call counts unchanged |
| LoopManager.GameLoopManager.constructor | core/game_loop_manager.go:18-29 | a new manager has zero statistics and three empty events |
| LoopManager.GameLoopManager.Initialise | core/game_loop_manager.go:39-47 | the events and the undershoot are stored and the statistics are untouched |
| LoopManager.GameLoopManager.Start | core/game_loop_manager.go:49-54 | each event's last-call time becomes now - period, so every overshoot is 0 and the first event is picked |
| LoopManager.GameLoopManager.Iterate | core/game_loop_manager.go:66-117 | all events are refreshed; the first maximal non-negative overshoot fires; otherwise the wait is added and a positive sleep is counted and accumulated, else a no-sleep; iterations grow by one, and total call counts plus sleeps plus no-sleeps keep pace with iterations |
| LoopManager.GameLoopManager.RefreshEvents | core/game_loop_manager.go:72-82 | the loop refreshes every event and returns the first index of maximal non-negative overshoot, or -1 |
| LoopManager.GameLoopManager.TimeTillNextEvent | core/game_loop_manager.go:97-104 | the loop computes the least -overshoot capped at 1e12 |
| LoopManager.SleepOnlyWhenNoneDue | core/game_loop_manager.go:96-113 | the sleep branch is taken only when every overshoot is negative, so the wait is between 1 and 1e12 |
| Geometry.MakeAxisAlignedCuboid | core/render_3d.go:98-110 | eight vertices in the colour given; vertex i takes x from max iff i is 1, 2, 5 or 6, y iff i is 2, 3, 6 or 7, z iff i >= 4 |
| Geometry.CornersDistinct | core/render_3d.go:98-110 | for a non-degenerate box the eight vertices are distinct |
| Geometry.Move | core/render_3d.go:112-117 | every vertex is shifted by the offset and the colour is kept |
| Geometry.MoveKeepsAlignment | core/render_3d.go:98-117 | moving an axis-aligned cuboid gives the cuboid of the moved corners |
| Geometry.AxesApart | core/render_3d.go:98-110 | at most three axes separate two vertices |
| Geometry.Degree | core/render_3d.go:125-129 | a vertex lies on at most as many edges as there are |
| Geometry.EdgesAreAxisAligned | core/render_3d.go:125-129 | the 12 edges join vertices that differ on exactly one axis |
| Geometry.FrontVertexDegrees | core/render_3d.go:125-129 | vertices 0-3 each lie on three edges |
| Geometry.BackVertexDegrees | core/render_3d.go:125-129 | vertices 4-7 each lie on three edges |
| Geometry.EveryVertexHasThreeEdges | core/render_3d.go:125-129 | every vertex lies on exactly three edges |
| GoInt.Abs | samples/triscratch.go:42-47 | `abs`: the result is non-negative and equals x or -x |
| GoInt.Min | core/game_loop_manager.go:90 | Go's built-in `min`: at most both arguments and equal to one of them |
| GoInt.Rem | core/user_input.go:57 | Go's `%`: smaller in magnitude than the divisor, and negative only for a negative dividend |
| GoInt.QuoRem | core/render_3d.go:16 | Go's `/` truncates toward zero: a == (a / b) * b + a % b |
| GoInt.RemNonNegative | core/user_input.go:57 | for a non-negative dividend Go's `%` is the mathematical remainder |
| GoStrings.TrimLeftSpace | core/obj.go:48 | trimming never lengthens the string |
| GoStrings.TrimRightSpace | core/obj.go:48 | trimming never lengthens the string |
| GoStrings.TrimLeftSpaceSplits | core/obj.go:48 | the input is the removed all-space prefix followed by a result that does not start with space |
| GoStrings.TrimRightSpaceSplits | core/obj.go:48 | the input is a result that does not end with space followed by the removed all-space suffix |
| GoStrings.TrimSpaceSlices | core/obj.go:48 | `strings.TrimSpace` removes an all-space prefix and suffix and keeps the middle |
| GoStrings.TrimSpaceEnds | core/obj.go:48-49 | the trimmed line is empty iff the line is all space; otherwise it starts and ends with a non-space |
| GoStrings.FieldsFromAreWords | core/utils.go:9 | every field is non-empty and free of spaces |
| GoStrings.FieldsAreWords | core/utils.go:9 | `strings.Fields` yields non-empty words without space |
| GoStrings.FieldsFromEmptyIff | core/utils.go:9 | the scan yields no field iff no word is pending and the rest is all space |
| GoStrings.FieldsEmptyIff | core/obj.go:49-54 | a string has no fields iff it is all space |
| GoStrings.FieldsOfWordSpace | core/utils.go:9 | a word followed by a space and more text splits off as the first field |
| GoStrings.FieldsOfSingleWord | core/utils.go:9 | a single word is its only field |
| GoStrings.FieldsOfJoin | core/utils.go:9-17 | splitting words joined by single spaces gives the words back |
| GoStrings.JoinKeeps | core/utils.go:17 | a property of every character of the words and of the separator holds for every character of the join |
| GoStrings.JoinEmpty | core/utils.go:17 | joining non-empty words gives "" iff there are none |
| GoStrings.SplitJoin | core/obj.go:76 | splitting at a separator that no piece contains undoes the join |
| GoStrings.TrimSuffix | core/render_2d.go:287 | `strings.TrimSuffix` removes the suffix when present (result + suffix == s) and returns s otherwise |
| GoStrings.ToLowerChar | core/utils.go:13 | the ASCII case of `unicode.ToLower`: the capitals A to Z move down by 32 to a to z, and every other character (non-ASCII capitals included) is kept |
| GoStrings.ToLower | core/utils.go:13 | `strings.ToLower` on ASCII capitals: the length is kept and each character is lowered by `ToLowerChar` |
| GoStrings.ToLowerIdempotent | core/utils.go:13 | lowering twice is lowering once |
| GoStrings.ToLowerKeepsSpaces | core/utils.go:13 | lowering keeps whether a word has spaces and whether it is empty |
| GoStrings.IndexOf | core/obj.go:76 | the index of the first separator, or the length when there is none |
| GoStrings.Split | core/obj.go:76 | `strings.Split` always yields at least one piece |
| GoStrings.SplitPiecesFree | core/obj.go:76 | no piece contains the separator |
| GoStrings.SplitAtFirst | core/obj.go:76 | the first piece is everything before the first separator |
| GoStrings.JoinSplit | core/obj.go:76 | joining the pieces with the separator gives the string back |
| GoStrings.SplitCount | core/obj.go:76 | there is one more piece than separators |
| GoStrings.Atoi | core/obj.go:80 | `strconv.Atoi` with its error discarded returns a value in the int64 range |
| GoStrings.NatDigits | core/obj.go:80 | decimal digits of a natural number are a non-empty digit string |
| GoStrings.DigitsValueOfNatDigits | core/obj.go:80 | the digits of n have value n |
| GoStrings.AtoiItoa | core/obj.go:80 | every int64 in decimal parses back to itself without error |
| GoStrings.AtoiRejects | core/obj.go:80 | "", a lone sign or a leading non-digit gives 0 with an error, which the parser discards |
| Utils.LowerAll | core/utils.go:12-14 | every word is lowered, in place and in order |
| Utils.ToSnakeCase | core/utils.go:7-18 | the loop computes the fields, lowered, joined by "_", and the result has no space |
| Utils.LoweredWords | core/utils.go:9-14 | the lowered fields are non-empty, space-free and lower case |
| Utils.SnakeCaseWords | core/utils.go:7-18 | the output has no space and no upper-case ASCII letter |
| Utils.SnakeCaseEmpty | core/utils.go:7-18 | the output is "" iff the input is empty or all space |
| Utils.SnakeCaseSplits | core/utils.go:9-17 | when no word contains '_', splitting the output at '_' gives the input's words lowered, in order |
| Utils.SnakeCaseIdempotent | core/utils.go:7-18 | snake-casing twice is snake-casing once |
| Utils.SnakeCaseLightBlue | core/utils.go:7-18 | "Light Blue" becomes "light_blue" |
| Vectors.InRange | core/vector.go:27-29 | `InRange` holds exactly when the point is outside the half-open box |
| Vectors.FromScalar | core/vector.go:31-33 | all three components equal the scalar |
| Vectors.SubtractUndoesAdd | core/vector.go:11-25 | subtracting what was added gives the vector back, and the other way round |
| Obj.TrimmedLineHasFields | core/obj.go:48-55 | a line that is not blank after trimming has a first field, so `fields[0]` exists |
| Obj.LineFields | core/obj.go:48-54 | a line yields no fields exactly when it is blank after trimming or starts with "#" |
| Obj.ResolveIndexInRange | core/obj.go:79-84 | an index k in 1..count becomes k-1 and -count..-1 becomes count+k, both in range; -1 is the last element; 0 becomes -1 |
| Obj.PieceEntry | core/obj.go:79-85 | each slot adds at most one index |
| Obj.SlotEntry | core/obj.go:76-85 | each part adds at most one index per slot |
| Obj.SlotEntries | core/obj.go:75-104 | a face has at most one index per part in each list |
| Obj.SlotEntriesInRange | core/obj.go:79-103 | when every part refers within the elements parsed so far, every resolved index is in range |
| Obj.SlotEntriesFull | core/obj.go:79-103 | when every part fills the slot, the list has one index per part |
| Obj.SplitExample | core/obj.go:76 | "1//3" splits into "1", "" and "3" |
| Obj.EmptySlotExample | core/obj.go:79-103 | a face part "1//3" adds vertex 0 and normal 2 and no texture index |
| Obj.UnparseableIndex | core/obj.go:80-84 | an unparseable index reads as 0 and is stored as -1 |
| Obj.ParseFace | core/obj.go:73-105 | the part loop builds the face of resolved vertex, texture and normal indices |
| Obj.ResolveSlot | core/obj.go:79-85 | one slot of one part becomes zero or one resolved index |
| Obj.ParseLine | core/obj.go:55-106 | a line fails (indexes past `fields`) exactly when it is a "v" or "vn" line with fewer than 3 values or a "vt" line with fewer than 2 |
| Obj.ParseLineGrows | core/obj.go:48-106 | a "v", "vt", "vn" or "f" line appends exactly one element to its own list and keeps the others; skipped and unknown lines change nothing |
| Obj.ParseLinesStep | core/obj.go:47-107 | each line is parsed against the data of the lines before it |
| Obj.FailureSticks | core/obj.go:47-107 | once a line has failed, later lines do not matter |
| Obj.AnyShortExists | core/obj.go:57-70 | the recursive check finds a short line iff one exists among the first n |
| Obj.ParseLinesFails | core/obj.go:47-107 | parsing fails iff some line is short |
| Obj.FailsIffAnyShort | core/obj.go:47-107 | parsing fails iff the recursive short-line check holds |
| Obj.ParseLinesCounts | core/obj.go:47-107 | after a successful parse, each list has as many elements as there are lines of its kind |
| Obj.FaceUsesEarlierLines | core/obj.go:81-101 | a face line's negative indices count only the elements of the lines before it |
| Obj.ParseOneLine | core/obj.go:48-106 | the body of the scanner loop computes the per-line parse |
| Obj.ParseOBJ | core/obj.go:44-113 | the scanner loop computes the parse of all lines |
| UserInput.ApplySnoc | core/user_input.go:3-49 | one more `SetBlock` stores its write after the earlier ones |
| UserInput.ApplyReads | core/world.go:28-33 | after a sequence of writes, a grid cell holds the last block written there, or its old block |
| UserInput.LastWriteNone | core/world.go:28-33 | a position no write touches has no last write |
| UserInput.ApplyElsewhere | core/world.go:28-33 | writes elsewhere leave a cell unchanged |
| UserInput.CreateWorldPlaced | core/user_input.go:3-49 | every position `createWorld` writes is in the grid (so every `SetBlock` succeeds), every lamp it places is unpowered, and the column, row and pillar loops write only in layer z = 0 |
| UserInput.ColumnLoopOffLayer | core/user_input.go:13-28 | the column loop leaves every cell off layer 0 unchanged |
| UserInput.RowLoopOffLayer | core/user_input.go:29-38 | the row loop leaves every cell off layer 0 unchanged |
| UserInput.PillarLoopOffLayer | core/user_input.go:40-48 | the pillar loop leaves every cell off layer 0 unchanged |
| UserInput.TorchLoopReads | core/user_input.go:6-11 | after the torch loop, each of the four neighbours holds a powered torch facing away from the centre, and the centre is untouched |
| UserInput.LayerLoopsOffLayer | core/user_input.go:13-48 | the later loops leave every cell off layer 0 unchanged |
| UserInput.AroundOffLayer | core/user_input.go:6-11 | the four torches lie off layer 0 |
| UserInput.CreateWorldCentre | core/user_input.go:4-12 | after `createWorld`, (8,2,4) holds a redstone block and its Left, Right, Front and Back neighbours hold powered torches facing that way |
| UserInput.CreateWorldLamps | core/user_input.go:14-46 | every lamp `createWorld` places starts with input None |
| UserInput.StoreLamps | core/world.go:28-33 | a placed write adds no powered lamp |
| UserInput.ApplyLamps | core/world.go:28-33 | a sequence of placed writes adds no powered lamp |
| UserInput.TorchLoopLamps | core/user_input.go:6-11 | the torch loop adds no powered lamp |
| UserInput.ColumnLoopLamps | core/user_input.go:13-28 | the column loop adds no powered lamp |
| UserInput.RowLoopLamps | core/user_input.go:29-38 | the row loop adds no powered lamp |
| UserInput.PillarLoopLamps | core/user_input.go:40-48 | the pillar loop adds no powered lamp |
| UserInput.Set | core/world.go:28-33 | one `SetBlock` on the world stores the write |
| UserInput.SetTwo | core/user_input.go:17-26 | two `SetBlock` calls store both writes in order |
| UserInput.CreateWorld | core/user_input.go:3-49 | `createWorld` leaves the world as the four loops, applied in order, define it |
| UserInput.CreateWorldSteps | core/user_input.go:3-49 | the stages compose to the whole of `createWorld` |
| UserInput.PlaceTorches | core/user_input.go:6-11 | the torch loop stores its four writes |
| UserInput.PlaceColumns | core/user_input.go:13-28 | the column loop stores its writes for i = 2..6 |
| UserInput.PlaceRows | core/user_input.go:29-38 | the row loop stores its writes for i = 0..3 |
| UserInput.PlacePillars | core/user_input.go:40-48 | the pillar loop stores its writes for i = 3..7 |
| UserInput.ProcessUserInputs | core/user_input.go:51-69 | reports a change iff the iteration is 0 or its Go remainder by 32 is 4 or 20; builds the world at 0, puts redstone blocks at (1,2,0) and (3,2,0) at 4 and air at 20, and changes nothing otherwise |
| UserInput.Toggle | core/user_input.go:58-60 | both switch cells are written |
| UserInput.ToggleEffect | core/user_input.go:57-66 | exactly (1,2,0) and (3,2,0) change, both to the given block |
| UserInput.InputPeriodic | core/user_input.go:51-69 | after iteration 0 the scripted input repeats every 32 iterations |
| UserInput.NegativeIterationsNoInput | core/user_input.go:57-67 | a negative iteration never matches 4 or 20 under Go's `%`, so nothing changes |
| WorldModel.World.constructor | core/world.go:9-11 | a new world is 4096 air cells |
| WorldModel.World.GetBlock | core/world.go:17-26 | `GetBlock` reads air outside the grid and the stored block inside |
| WorldModel.World.SetBlock | core/world.go:28-34 | succeeds iff the position is in the grid; then only that cell changes to the block, otherwise nothing changes |
| WorldModel.World.Overwrite | core/world.go:60 | `*w = nextWorld` replaces the whole contents |
| WorldModel.World.UpdateBlock | core/world.go:36-43 | the block and flag are the update of the cell against the current world |
| WorldModel.World.UpdateWorld | core/world.go:45-62 | the new world is every cell updated against the old world only, and the count is the number of cells reporting an update |
| WorldModel.World.UpdateInto | core/world.go:50-57 | one loop iteration writes the visited cell's update into the next world and reports its flag |
| WorldModel.VisitFlags | core/world.go:48-55 | the visit flags counted in loop order give the update count |
| WorldModel.VisitedStep | core/world.go:51-56 | storing the next visited cell extends the filled prefix by one |
| WorldModel.FullyVisited | core/world.go:48-60 | after all 4096 visits the next world is the update of every cell |
| Redstone2D.Opposite | core2/main.go:42-55 | no direction is its own opposite |
| Redstone2D.ToVector | core2/main.go:57-70 | exactly one component is non-zero, and each is -1, 0 or 1 |
| Redstone2D.OppositeInvolution | core2/main.go:42-55 | the opposite of the opposite is the direction |
| Redstone2D.ToVectorOfOpposite | core2/main.go:42-70 | the vector of the opposite is the negated vector |
| Redstone2D.GetPowerInDirection | core2/main.go:211-219 | a redstone block is always On; a torch is On iff it is on and does not face opposite the query direction; air is Off |
| Redstone2D.BuildRedstoneTorch | core2/main.go:221-252 | the built block is a torch with the requested power and direction |
| Redstone2D.TorchRoundTrip | core2/main.go:185-252 | rebuilding a torch from its power and direction gives the same block |
| Redstone2D.ScaleIsProduct | core2/main.go:159-161 | the row offset is y * width |
| Redstone2D.RowsOrdered | core2/main.go:159-161 | later rows start at least a row width further on |
| Redstone2D.IndexInGrid | core2/main.go:159-161 | every in-grid (x, y) indexes inside the buffer |
| Redstone2D.IndexInjective | core2/main.go:159-161 | different in-grid cells have different indices |
| Redstone2D.GetBlock | core2/main.go:167-172 | air outside [0,width) x [0,height), without indexing; the stored block inside |
| Redstone2D.UpdateRedstoneTorch | core2/main.go:254-267 | the torch keeps its direction; it flips exactly when its power equals the input from the cell behind it; updated iff it flipped |
| Redstone2D.UpdateBlockChanges | core2/main.go:269-277 | updated iff the block changed; non-torches are kept with no update; torches keep their direction |
| Redstone2D.NextRow | core2/main.go:283-290 | one row of the next buffer has one cell per column |
| Redstone2D.NextRows | core2/main.go:282-292 | the first y rows of the next buffer have y * width cells |
| Redstone2D.NextBlocks | core2/main.go:279-294 | the next buffer has as many cells as the current one |
| Redstone2D.NextRowAt | core2/main.go:283-290 | each cell of a row is the update of that cell |
| Redstone2D.NextRowsAt | core2/main.go:282-292 | the cell at (x, y) of the next buffer is the update of (x, y) |
| Redstone2D.NextBlocksAt | core2/main.go:279-294 | every cell of the next buffer is the update of that cell, computed from the current buffer |
| Redstone2D.IndexCovers | core2/main.go:159-161 | every buffer index is the index of an in-grid cell |
| Redstone2D.RowNoUpdates | core2/main.go:283-290 | a row counts zero updates iff no cell in it updates |
| Redstone2D.RowsNoUpdates | core2/main.go:282-292 | the rows count zero updates iff no cell in them updates |
| Redstone2D.StableIffFixedPoint | core2/main.go:279-294 | no cell updates iff the next buffer equals the current one |
| Redstone2D.NoUpdatesIffFixedPoint | core2/main.go:279-294 | `UpdateBlocks` returns 0 iff the automaton is at a fixed point |
| Redstone2D.Run | core2/main.go:296-305 | running keeps the buffer size |
| Redstone2D.RunStops | core2/main.go:296-305 | from iteration 200 or more nothing runs; otherwise at least one step runs and the iteration ends at most at 200; the run ends at 200 or at a fixed point |
| Redstone2D.FillNextBlocks | core2/main.go:282-292 | the nested loop fills the next buffer with the next generation and counts its updates |
| Redstone2D.FillRow | core2/main.go:283-290 | one pass of the inner loop appends the next row and counts its updates |
| Redstone2D.State.Initialise | core2/main.go:126-133 | two fresh buffers of width * height air cells, iteration 0 |
| Redstone2D.State.BuffersAreDistinct | core2/main.go:135-147 | the current and the next buffer are always the two different buffers |
| Redstone2D.State.SetBlock | core2/main.go:163-165 | only the cell at (x, y) of the given buffer changes |
| Redstone2D.State.UpdateBlocks | core2/main.go:279-294 | the next buffer receives the next generation, computed from the current buffer, which is left unchanged; the iteration grows by 1, which swaps the buffers; the count is the number of updated cells |
| Redstone2D.State.RunIterations | core2/main.go:296-305 | the loop leaves the buffer and the iteration as the recursive run defines them |
| Render2D.SquareOfPixel | core/render_2d.go:45-47 | a pixel in the k-th 50-pixel band of a square belongs to square k |
| Render2D.DrawChequerBoard | core/render_2d.go:22-51 | the image is 400x400 and every pixel has the colour of its square: c1 where the square's column plus row is even, c2 otherwise |
| Render2D.FillSquare | core/render_2d.go:45-49 | the 50x50 square at (x, y) takes colour c and every other pixel keeps its colour |
| Render2D.NeighboursDiffer | core/render_2d.go:37-42 | with two different colours, horizontally and vertically adjacent squares differ and diagonal neighbours agree |
| Render2D.BitAndSelf | core/render_2d.go:112 | a number AND-ed with itself is itself |
| Render2D.RejectsScaleIff | core/render_2d.go:112-114 | the guard `f <= 0 or f & (f-1) != 0` rejects a scale factor exactly when it is not a power of two |
| Render2D.StripsPartition | core/render_2d.go:144-157 | the worker strips start at row 0, each ends where the next begins, each lies within the image, and the last ends at the image height |
| Render2D.StripBelow | core/render_2d.go:153-154 | worker w of n, with r rows each, starts at a non-negative row and ends at (w+1) r, no later than n r |
| Render2D.SourceCoordinate | core/render_2d.go:162-170 | a destination coordinate divided by the scale factor lies inside the source image |
| Render2D.ScaleImageNearestNeighbor | core/render_2d.go:111-187 | fails exactly for a scale factor that is not a power of two or an empty source; otherwise a fresh image f times wider and taller whose pixel (x, y) is the source pixel (x / f, y / f) |
| Render2D.ScaleRows | core/render_2d.go:153-179 | one worker: rows startRow up to endRow are copied from the source and all other rows are unchanged |
| Render2D.ScaleRow | core/render_2d.go:160-178 | every pixel of row y is copied from the source and no other row changes |
| Render2D.ExtFrom | core/render_2d.go:217 | the extension found scanning back from i is empty or a dot-led suffix of the path with no further dot or slash |
| Render2D.Ext | core/render_2d.go:217 | `filepath.Ext`: empty, or the suffix from the last dot of the final path element, containing no slash and no other dot |
| Render2D.PngFilesMembers | core/render_2d.go:216-220 | an entry is selected exactly when it is in the listing, is not a directory and has extension ".png" |
| Render2D.KeyOfPng | core/render_2d.go:286-288 | for a PNG file the texture key plus ".png" is the file name |
| Render2D.KeysDiffer | core/render_2d.go:286-288 | two PNG files with different names get different texture keys |
| Render2D.FirstLoadFailure | core/render_2d.go:222-228 | every image before the returned index loads, and the image at it (if any) fails |
| Render2D.CeilSqrtFrom | core/render_2d.go:240 | the search from k returns the least r with r*r >= n |
| Render2D.CeilSqrt | core/render_2d.go:240 | tilesPerDim is the ceiling of the square root: k*k >= n and (k-1)*(k-1) < n |
| Render2D.MetasOfHasKey | core/render_2d.go:286-288 | the key of every placed image is in the texture map |
| Render2D.MetasOfHasKeys | core/render_2d.go:286-288 | the keys of all placed images are in the texture map |
| Render2D.MetasOfOnlyKeys | core/render_2d.go:247-288 | every key in the texture map belongs to some placed image and maps to that image's tile corner |
| Render2D.MetasOfOwnTile | core/render_2d.go:247-288 | for PNG files with distinct names, each file's key maps to its own tile corner |
| Render2D.SelectPngFiles | core/render_2d.go:216-220 | the loop keeps exactly the PNG files of the listing, in listing order |
| Render2D.LoadImages | core/render_2d.go:222-228 | the loop fails with the error of the first image that does not load; otherwise it returns every image, in order |
| Render2D.TileCorner | core/render_2d.go:250-251 | the tile of image i sits at column i mod tilesPerDim and row i div tilesPerDim, each tileSize + 2 padWidth wide |
| Render2D.PlaceTiles | core/render_2d.go:247-289 | image j is drawn at its tile corner and the texture map is built from the keys of the files in order |
| Render2D.GenerateTilemap | core/render_2d.go:204-292 | a listing error is returned as is; the first load error is returned; no PNG file gives "no PNG files found in directory: " + dir; otherwise the tilemap is tilesPerDim (tileSize + 2 padWidth) square, with image i in its tile and the texture map of the keys |
| Render2D.TilesFit | core/render_2d.go:240-252 | every tile lies inside the tilemap |
| Render2D.TilesDisjoint | core/render_2d.go:250-252 | the tiles of two different images do not overlap |
| Render3D.UnitSquare | core/render_3d.go:15-28 | a box of size 1 (or -1) covers exactly its centre pixel |
| Render3D.SquareSpan | core/render_3d.go:16-17 | the box spans offsets -size/2 to size/2 with Go's truncating division |
| Render3D.DrawBox2D | core/render_3d.go:15-28 | every pixel of the image inside the box is combined with the colour and every other pixel is unchanged; pixels outside the image are skipped |
| Render3D.DrawLine | core/render_3d.go:31-63 | exactly the in-image pixels of the inclusive Bresenham walk from (x0,y0) to (x1,y1) are combined with the colour, once each; all others are unchanged |
| Render3D.StepPen | core/render_3d.go:53-61 | one pass of the loop is the inclusive walk's step (tests `>=` and `<=` on the error from before the pass) |
| Render3D.UnitSquareAll | core/render_3d.go:49 | the box drawn at each line pixel covers that pixel alone |
| Render3D.GridPoint | core/render_3d.go:158-161 | the k-th generated position lies in the 16x16x16 grid |
| Render3D.GridPointAt | core/render_3d.go:158-163 | position (x, y, z) is generated at index 256x + 16y + z (x outer, z inner) |
| Render3D.Generated | core/render_3d.go:156-166 | the grid loops generate 4096 blocks |
| Render3D.GetSortedBlockPositions | core/render_3d.go:155-175 | the result is sorted by distance and is a permutation of the generated blocks |
| Render3D.GenerateBlocks | core/render_3d.go:156-166 | the triple loop appends exactly the generated blocks, in order |
| Render3D.SortByDistance | core/render_3d.go:168 | the array ends sorted by non-decreasing distance and is a permutation of its old contents |
| Render3D.SwapDown | core/render_3d.go:153 | the two neighbours are exchanged, all others are unchanged, and the contents stay a permutation |
| Render3D.GridPointInjective | core/render_3d.go:158-161 | different indices give different positions |
| Render3D.GeneratedCoversGrid | core/render_3d.go:156-166 | every grid position is generated, no position twice, each with its distance from the origin |
| Render3D.GeneratedMember | core/render_3d.go:161-163 | a generated block lies in the grid and carries its own distance |
| Render3D.GeneratedCountsOnce | core/render_3d.go:156-166 | no block occurs twice among the generated blocks |
| Render3D.RepeatCountsTwice | core/render_3d.go:168 | an element at two indices occurs at least twice in the multiset |
| Render3D.DistinctCountsOnce | core/render_3d.go:168 | a sequence with no repeats holds each element at most once |
| Render3D.SortedBlocksCount | core/render_3d.go:155-175 | the sorted result has 4096 blocks |
| Render3D.SortedBlocksCoverGrid | core/render_3d.go:155-175 | every grid position appears in the sorted result |
| Render3D.SortedBlocksDistinct | core/render_3d.go:155-175 | every sorted block lies in the grid with its own distance, and no position appears twice |
| TriScratch.DrawLine | samples/triscratch.go:12-40 | exactly the in-image pixels of the strict Bresenham walk from (x1,y1) to (x2,y2) are set to the colour; all others are unchanged |
| TriScratch.StepPen | samples/triscratch.go:30-38 | one pass of the loop is the strict walk's step (tests `>` and `<` on the error from before the pass) |
| TriScratch.AbsSymmetric | samples/triscratch.go:42-47 | abs is non-negative and the same for x and -x |
| TriScratch.CompareSwap | samples/triscratch.go:170-178 | after one compare-and-swap the pair is ordered by y, holds the same two vertices, and the rest is unchanged |
| TriScratch.SortByY | samples/triscratch.go:168-178 | the three compare-and-swaps sort the vertices by y and keep the same vertices |
| TriScratch.SortVertices | samples/triscratch.go:169-178 | the array ends holding the sorted vertices |
| TriScratch.SwapIfBelow | samples/triscratch.go:170-172 | one in-place compare-and-swap |
| TriScratch.SplitVertex | samples/triscratch.go:185-188 | the split vertex is on the middle vertex's row |
| TriScratch.QuotientAtMost | samples/triscratch.go:185-188 | a quotient of m <= d den by den is at most d |
| TriScratch.FractionBetween | samples/triscratch.go:185-188 | a fraction num/den in (0,1) of d, truncated toward zero, lies between 0 and d |
| TriScratch.SplitVertexBetween | samples/triscratch.go:185-188 | the split vertex's x, u and v each lie between those of the top and bottom vertices |
| TriScratch.Dispatch | samples/triscratch.go:180-191 | one or two flat triangles are drawn |
| TriScratch.RenderTriangle | samples/triscratch.go:168-192 | the triangle is sorted by y and dispatched to flat-bottom and flat-top fills |
| TriScratch.DispatchCovers | samples/triscratch.go:180-191 | each fill is flat as it assumes; together they run from the top row to the bottom row, the two halves meeting on the middle vertex's row |
| TriScratch.SortByYRows | samples/triscratch.go:168-178 | the sorted first and last vertices are input vertices with the least and greatest y |

## Left out

- Floating-point numerics are not modelled:
  - the camera projection and the point rotations;
  - `FastSin`/`FastCos`;
  - `CombineColors` and `HSVToRGB`, where `CombineColors` is a `combine` parameter of `Render3D.DrawBox2D` and `Render3D.DrawLine`;
  - `DrawLine3D`;
  - the rotation arithmetic in the torch and lever `ToCuboids` (the lever model records only the tilt and rotation constants it selects);
  - `CreateCuboidUVs`.
- Render3D.DrawLine takes integer end points. The float-to-int truncation of `Point2D` coordinates at core/render_3d.go:32-33 is not modelled.
- Render3D.GetSortedBlockPositions: the distance from the camera is an opaque function parameter, and reals stand in for float64. Go's `sort.Sort` is replaced by an insertion sort. The model promises what `sort.Sort` promises: a sorted permutation. Which of several blocks at equal distance comes first is not captured.
- TriScratch.RenderTriangle: the flat-bottom and flat-top fills use float slopes and `f2i` rounding to fill pixels, and are not modelled. The model returns which fills are drawn, with which vertices.
- TriScratch.SplitVertex computes the split vertex with exact integer arithmetic, truncating toward zero, where the source computes it in float64 and then truncates. The two can differ by float rounding.
- Render2D.ScaleImageNearestNeighbor is sequential:
  - the worker count is a parameter standing for `runtime.NumCPU()`;
  - the goroutines, the wait group and the unsafe byte copies are not modelled;
  - each worker's row range is copied one after the other, and the pixel copy is one RGBA value;
  - the panics on a bad scale factor and on an empty source (`&srcPixels[0]`) become a `Failure`.
- Render2D.GenerateTilemap:
  - `LoadAssets` (the directory listing) and `loadImage` (file read and PNG decode) are parameters;
  - `draw.Draw` compositing into the atlas image is recorded as one `Tile` per image at its corner, not as pixels;
  - the `doPad` border copy is not modelled, because `doPad` is the constant false and the padding width is 0;
  - each atlas entry holds the integer tile corner rather than the float UV rectangle, since the UV division by the atlas size is float arithmetic.
- Render2D.Ext follows `filepath.Ext` for '/'-separated paths. Windows separators and volume names are not modelled.
- Render2D.DrawChequerBoard returns the image instead of encoding it to chequerboard.png; `AnimateChequerBoard`, `scaleImage` and `SaveImage` are not modelled.
- Go `int` and `int64` overflow is not modelled: all integers are unbounded. The int8 block codes of core2/main.go only hold values that fit.
- GoStrings.ToLowerChar lowers only the ASCII capitals A to Z. Go's `strings.ToLower` maps every rune through `unicode.ToLower`, so a non-ASCII capital such as 'Ä' stays upper case in the model. The program snake-cases only the ASCII colour names, so its own uses are unaffected.
- GoStrings.ToLower, Utils.ToSnakeCase and the snake-case lemmas inherit that ASCII-only lowering: on input "Ärger Blau" Go gives "ärger_blau" and the model gives "Ärger_blau".
- Redstone2D.Opposite and Redstone2D.ToVector: the directions and blocks of core2/main.go are closed datatypes of the named codes (directions 0..3, blocks 0..9). An int8 outside those codes cannot be represented, so the `default: panic` branches of `Opposite` and `ToVector` are not modelled.
- Redstone2D.State.SetBlock: Go's slice-index panic at core2/main.go:163-165 is the requires `0 <= GetIndex(width, x, y) < blocks.Length`. That requires still admits an out-of-grid (x, y) whose index falls inside the slice, as Go does. The panic path itself is not modelled.
- The clock is a parameter:
  - `nanotime` readings are passed in;
  - the two clock readings at the start of `RunGameLoop` are parameters of the `GameLoop.FixedRateLoop` constructor.
- Concurrency and waiting are not modelled:
  - the quit channel, `select` and `time.Sleep` in `RunGameLoop` and `GameLoopManager.Run`;
  - the engine goroutines.
  An iteration returns which callback to run or how long to sleep, and the callbacks themselves are not modelled.
- `World.SubUpdateWorld` and `UpdateInputPowerType` are opaque: the scene update takes the sub-update as a function parameter. Wool's `SubUpdate` is modelled with the new input type passed in.
- Obj.ParseOBJ:
  - the caller supplies the lines, because opening the file and the scanner are not modelled;
  - `strconv.ParseFloat` with its error discarded is a `parseFloat` parameter;
  - the index-out-of-range panic of a short "v", "vt" or "vn" line becomes a `Failure`.
- `WriteBlocksToImage` and `PrintBlocks` in core2/main.go are not modelled, nor are the image and print callbacks of `RunIterations`.
- `DrawCuboid`'s projection and drawing are not modelled. Only its edge table is.
- Save files, fonts, profiling, the wasm and unix platform layers, and the test and benchmark files are not modelled.
- `DrawTriangle3D`, `DDA3D` and the depth buffer are not part of this model.
