# wye_2d game rules in Dafny

wye_2d is a small top-down office game written in Rust on the ggez engine.
The player walks around an office in which desks and NPCs (the "wyeworkers")
are placed. Walking into an NPC or a desk puts it in focus. Return starts a
conversation, which is a tree of dialog nodes navigated with Up, Down,
Return and Escape. The camera scrolls when the player nears the edge of the
view.

This project models the rules under the rendering and event loop, and
proves what they promise:

- `Dialog` and `InputSystem`: the dialog tree and its key handlers. The
  handlers decide whether a conversation starts, moves its cursor, descends
  into a sub-tree or ends. Every panic of the source (an unwrap of `None`, an
  underflow of `len() - 1` as a debug build traps it, an index out of range) is an explicit `Panic`
  outcome. A well-formed tree is proved never to panic.
- `Positioning`, `Physics` and `Collision`: centres, sizes, the clamp that
  keeps a body inside an area, the one-key position update, and the strict
  axis-aligned overlap test.
- `PhysicsSystem`: the movement resolver. Each held key's move is
  all-or-nothing. A refused move hands the focus to the last body hit. The
  camera scrolls on the candidate position, before collisions are known.
- `CameraSystem`: world-to-screen translation, the dead-zone "approaching
  edge" rule, the world-bounds rule, and the direction-keyed and key-keyed
  variants of scrolling.
- `Game`, `EcsStore` and `WorldStore`: the three entity stores of the
  successive snapshots. Each keeps parallel slot collections under one index
  and a fixed loading order. Each store is a class with `modifies` frames and
  a `Valid()` invariant.
- `TextureAtlas`, `PlayerSprites`, `OfficeSprites` and `Tiles`: lookup of
  atlas frames by name, the sprite tables and animation-frame selectors, and
  the floor-tile grid.
- `Entities`: the first prototype's player and map.

Things the engine supplies are parameters:

- the frame time `dt` from `ggez::timer`;
- whether a key is held (`isKeyPressed: KeyCode -> bool`);
- the drawable size;
- the random NPC positions `rand::thread_rng` would pick, given as integers
  with the source's range as a precondition;
- the parsed atlas and the NPC records, which come from JSON files.

`f32` coordinates are `real`, and frame counts are `nat`.

The repository holds several snapshots of the same code. Verbatim copies
are modelled once, and the rows below cite every copy a member covers. The
snapshots keep the focus in different places. This model keeps it on the
store, as `input_system.rs` and `physics_system.rs` do.

## Model

| member | source | states |
|---|---|---|
| Dialog.New | src/ecs/systems/input_system/interaction.rs:14-25 | the cursor starts at option 0; options, sub-interactions and dialog are stored unchanged; the same code is copied at src/ecs/systems/physics_system/positioning/collision.rs:25-36, which this member models too |
| Dialog.Default | src/ecs/systems/input_system/interaction.rs:29-36 | no options, no sub-interactions, dialog "Hi!", cursor 0; the same code is copied at src/ecs/systems/physics_system/positioning/collision.rs:40-47, which this member models too |
| Dialog.DefaultWellFormed | src/ecs/systems/input_system/interaction.rs:29-36 | the default node is a well-formed leaf |
| InputSystem.PlayerMovements | src/ecs/systems/input_system/input_system.rs:8-18 | the result is the pressed keys among Up, Down, Left, Right: a key is in it iff it is an arrow and pressed; scan order is strictly increasing, so there are no duplicates; length at most 4; empty iff no arrow is pressed; the same code is copied at src/ecs/systems/player_input_system.rs:4-14, which this member models too |
| InputSystem.PressedAmongMembers | src/ecs/systems/input_system/input_system.rs:10-14 | a key is kept by the filter iff it is among the scanned keys and pressed; the result is no longer than the input |
| InputSystem.PressedAmongOrdered | src/ecs/systems/input_system/input_system.rs:10-14 | the filter keeps the scan order: increasing ranks in, increasing ranks out |
| InputSystem.HeldMovementKeys | src/ecs/systems/player_input_system.rs:5-13 | over the four arrows, the filter's result is the pressed arrows, ordered, at most 4, empty iff none is pressed |
| InputSystem.KeyDownEventInteraction | src/ecs/systems/input_system/input_system.rs:21-29 | with no conversation only Return can start one, and any other key gives none; during a conversation Up, Down and Return update it and every other key ends it |
| InputSystem.InteractionInputHandler | src/ecs/systems/input_system/input_system.rs:31-37 | Up, Down and Return are handed to `update_interaction`; Escape and every other key end the conversation |
| InputSystem.BeginInteraction | src/ecs/systems/input_system/input_system.rs:39-47 | panics iff the focus is past the end of the NPC slots, or the focused slot holds an NPC and is past the end of the stored interactions; otherwise a conversation starts iff the focused slot holds an NPC and a stored interaction, and it is that stored interaction |
| InputSystem.UpdateInteraction | src/ecs/systems/input_system/input_system.rs:49-70 | a node without sub-interactions ends the conversation; Up decrements a nonzero cursor; Down panics iff options are missing or empty, and otherwise increments only below the last option; Return panics iff the cursor is past the sub-interactions, and otherwise replaces the node by the chosen sub-tree; any other key ends the conversation |
| InputSystem.UpdateInteractionKeepsWellFormed | src/ecs/systems/input_system/input_system.rs:49-70 | on a well-formed node no key panics, and any node that remains is well-formed |
| InputSystem.KeyDownKeepsWellFormed | src/ecs/systems/input_system/input_system.rs:21-47 | when every stored interaction is well-formed and the focus is in range, a key press never panics and leaves a well-formed conversation or none |
| InputSystem.RunKeysKeepsCursorInRange | src/ecs/systems/input_system/input_system.rs:49-70 | over any sequence of key presses the conversation never panics and its cursor stays below its number of options |
| InputSystem.EscapeEndsAnyRun | src/ecs/systems/input_system/input_system.rs:21-37 | after any run of keys that has not panicked, one more Escape leaves no conversation: an active one ends, and with none active Escape starts none |
| InputSystem.ThreeOptionMenuScenario | src/ecs/systems/input_system/input_system.rs:53-65 | on a three-option menu, Down, Down reaches the last option, a third Down stays there, and Return then opens the last option's sub-tree (not another option's) |
| InputSystem.ReturnStartsFocusedConversation | src/ecs/systems/input_system/input_system.rs:21-29 | Return, with the focus on an NPC slot that has a stored interaction, starts exactly that interaction |
| Positioning.Clamped | src/ecs/systems/physics_system/physics.rs:122-128 | the result is low, high or the value; below low gives low, above high gives high, a value in range is kept, and a non-empty range contains the result |
| Positioning.Clamp | src/ecs/systems/physics_system/positioning/positioning.rs:49-55 | the in-place clamp leaves exactly the value `Clamped` describes; the same code is copied at src/positioning/positioning.rs:34-40 and src/positioning.rs:36-42, which this member models too |
| Positioning.ClampedIdempotent | src/ecs/systems/physics_system/physics.rs:122-128 | clamping twice into a non-empty range is clamping once |
| Positioning.ClampedNearest | src/positioning/positioning.rs:34-40 | the clamped value is no further than the input from any point of the range |
| Positioning.Position.ClampSelf | src/ecs/systems/physics_system/physics.rs:70-81 | the new centre is the old one clamped axis by axis to [w/2, W − w/2] × [h/2, H − h/2]; the same code is copied at src/ecs/systems/physics_system/positioning/positioning.rs:17-28, which this member models too |
| Positioning.ClampObject | src/ecs/systems/physics_system/positioning/positioning.rs:32-47 | the same effect on a position as `clamp_self`; inside the area when the object fits; a centre already inside is unchanged; the same code is copied at src/positioning/positioning.rs:17-32, which this member models too |
| Positioning.ClampObjectSized | src/positioning.rs:17-34 | half extents are (w·0.5, h·0.5) of the size pair; the effect equals the sized clamp, and the centre is inside the area when the object fits |
| Positioning.ClampedToAreaInside | src/ecs/systems/physics_system/positioning/positioning.rs:32-47 | when the object fits, the clamped centre keeps the whole object inside the area |
| Positioning.ClampedToAreaFixedPoint | src/positioning/positioning.rs:17-40 | a centre already inside the bounds is a fixed point |
| Positioning.ClampedToAreaIdempotent | src/positioning.rs:17-42 | clamping twice is clamping once, when the object fits |
| Positioning.ClampedToAreaAxesIndependent | src/positioning/positioning.rs:17-32 | the clamped x depends only on x, and the clamped y only on y |
| Positioning.Size.WHalf | src/ecs/systems/physics_system/physics.rs:94-96 | twice the half width is the width; the same code is copied at src/positioning/positioning.rs:51-53, which this member models too |
| Positioning.Size.HHalf | src/ecs/systems/physics_system/physics.rs:91-93 | twice the half height is the height; the same code is copied at src/ecs/systems/physics_system/positioning/positioning.rs:64-66, which this member models too |
| Physics.Direction.ToIndex | src/ecs/systems/physics_system/physics.rs:112-119 | the index is below 4 and determines the direction back |
| Physics.ToIndexBijective | src/ecs/systems/physics_system/physics.rs:112-119 | `to_index` is a bijection onto {0, 1, 2, 3} |
| Physics.Direction.Name | src/ecs/systems/physics_system/physics.rs:99-108 | the strum `serialize` name of a direction ("up", "down", "left", "right"); parsing it with the derived `EnumString` gives the same direction back |
| Physics.FromName | src/ecs/systems/physics_system/physics.rs:99-108 | the derived `EnumString` parse: a string parses iff it is one of the four serialised names |
| Physics.NameRoundTrip | src/ecs/systems/physics_system/physics.rs:99-108 | a string parses to a direction iff it is that direction's name, so names and directions correspond one to one |
| Physics.KeyDirection | src/ecs/systems/physics_system/physics_system.rs:85-91 | a key names a direction iff it is an arrow |
| Physics.New | src/ecs/systems/physics_system/physics.rs:17-34 | `walking` starts false; position, size, speed and direction are stored as given; the same code is copied at src/ecs/systems/physics_system/positioning/positioning.rs:98-113, which this member models too |
| Physics.Shifted | src/ecs/systems/physics_system/physics.rs:38-44 | only the key's axis moves, by exactly ± delta with the source's signs; a non-arrow key does not move |
| Physics.Moved | src/ecs/systems/physics_system/physics.rs:36-53 | the update sets `walking`, keeps size, speed and direction, and leaves the shifted centre clamped to the world |
| Physics.Physics.UpdatePosition | src/ecs/systems/physics_system/physics.rs:36-53 | the in-place update leaves exactly `Moved`; the same code is copied at src/ecs/systems/physics_system/positioning/positioning.rs:115-132, which this member models too |
| Physics.MovedStaysInWorld | src/ecs/systems/physics_system/physics.rs:45-52 | a body that fits in the world is inside it after any update |
| Physics.MovedByOtherKeyStays | src/ecs/systems/physics_system/physics.rs:38-52 | a non-arrow key leaves a body that is inside the world where it was, only setting `walking` |
| Collision.BodiesCollide | src/positioning/collision.rs:3-9 | the four strict edge comparisons of `objects_collide` on the oldest snapshot's bodies; two boxes can only collide when their combined half widths and half heights are positive |
| Collision.ObjectsCollide | src/ecs/systems/physics_system/positioning/collision.rs:3-10 | the same test on physics components: they collide iff their centres are closer than the sums of the half extents on both axes; the same code is copied at src/ecs/systems/physics_system/physics_system.rs:161-167, which this member models too |
| Collision.CollideIffCentreDistance | src/positioning/collision.rs:3-9 | two bodies collide iff both centre distances are below the sums of the half extents |
| Collision.CollideSymmetric | src/positioning/collision.rs:3-9 | the test does not depend on argument order |
| Collision.TouchingXDoesNotCollide | src/positioning/collision.rs:4-5 | boxes whose edges only touch along x do not collide |
| Collision.TouchingYDoesNotCollide | src/positioning/collision.rs:6-7 | boxes whose edges only touch along y do not collide |
| Collision.SelfCollision | src/ecs/systems/physics_system/positioning/collision.rs:3-10 | a box collides with itself iff its width and height are positive |
| Collision.ObjectsCollideSymmetric | src/ecs/systems/physics_system/physics_system.rs:161-167 | the resolver's overlap test on physics components is symmetric |
| CameraSystem.New | src/ecs/systems/render_system/camera.rs:13-22 | the camera is centred at the given position, with the 1600×800 default size and speed 125; the same code is copied at src/ecs/systems/render_system/camera_system.rs:15-24 and src/ecs/systems/camera_system.rs:14-23, which this member models too |
| CameraSystem.Camera.WorldToScreen | src/ecs/systems/render_system/camera.rs:24-29 | a pure translation by (w/2 − cx, h/2 − cy); the same code is copied at src/ecs/systems/render_system/camera_system.rs:26-31 and src/ecs/systems/camera_system.rs:25-30, which this member models too |
| CameraSystem.Camera.IsPlayerApproachingCameraEdge | src/ecs/systems/render_system/camera.rs:41-58 | only a player with a facing can approach an edge; facing left or up, it approaches when it is in the first third of the view on that axis, and facing down when it is in the last third; facing right the threshold is `height / 3` short of the right edge, as written; the same code is copied at src/ecs/systems/render_system/camera_system.rs:43-60, which this member models too |
| CameraSystem.Camera.IsWithinWorldBounds | src/ecs/systems/render_system/camera.rs:60-76 | scrolling toward a side is allowed iff the view's edge on that side is still strictly less than `DEFAULT_CAMERA_OFFSET` beyond the world; the same code is copied at src/ecs/systems/render_system/camera_system.rs:62-78, which this member models too |
| CameraSystem.CameraCentreOnScreenCentre | src/ecs/systems/camera_system.rs:25-30 | the camera's own centre is drawn at (w/2, h/2) |
| CameraSystem.WorldToScreenPreservesDifferences | src/ecs/systems/render_system/camera.rs:24-29 | differences between world points are kept on screen |
| CameraSystem.Scrolled | src/ecs/systems/render_system/camera.rs:31-39 | one coordinate changes, by ± speed·dt along the direction; size and speed never change |
| CameraSystem.Camera.UpdatePosition | src/ecs/systems/render_system/camera.rs:31-39 | the in-place scroll leaves exactly `Scrolled`; the same code is copied at src/ecs/systems/render_system/camera_system.rs:33-41, which this member models too |
| CameraSystem.ScrolledForKey | src/ecs/systems/camera_system.rs:32-41 | an arrow scrolls as its direction does, and any other key leaves the camera unchanged |
| CameraSystem.Camera.UpdatePositionForKey | src/ecs/systems/camera_system.rs:32-41 | the in-place key-keyed scroll leaves exactly `ScrolledForKey` |
| CameraSystem.Camera.IsPlayerApproachingCameraEdgeForKey | src/ecs/systems/camera_system.rs:43-62 | the edge rule keyed by the pressed key: never true for a non-arrow key, and for each arrow the same world-coordinate threshold as the facing rule |
| CameraSystem.Camera.IsWithinWorldBoundsForKey | src/ecs/systems/camera_system.rs:63-79 | the bounds rule keyed by the pressed key: a non-arrow key is never blocked, and an arrow is allowed iff the view's edge on its side is strictly less than the offset beyond the world |
| CameraSystem.ApproachingEdgeBySide | src/ecs/systems/render_system/camera.rs:41-58 | "approaching the edge" holds iff the facing matches the side: screen x < w/3 facing left, y < h/3 facing up, y > h − h/3 facing down, x > w − h/3 facing right (the right edge uses the height third, as written); never without a facing |
| CameraSystem.DefaultRightThreshold | src/ecs/systems/render_system/camera_system.rs:43-60 | with the default camera the right threshold is 1600 − 800/3, further right than a width third would put it |
| CameraSystem.DeadZoneNeverScrolls | src/ecs/systems/render_system/camera_system.rs:43-60 | a player inside the dead zone never triggers a scroll |
| CameraSystem.WithinWorldBoundsBySide | src/ecs/systems/render_system/camera.rs:60-76 | the bounds rule fails only when heading toward an edge already at or past the offset: left or top edge ≤ −80, right or bottom edge ≥ world + 80 |
| CameraSystem.AwayFromBlockedEdgePermitted | src/ecs/systems/render_system/camera.rs:72-75 | when the view is narrower than the world plus both offsets, a blocked direction always leaves the opposite direction permitted |
| CameraSystem.Camera.MaybeUpdate | src/ecs/systems/render_system/camera.rs:78-85 | the in-place rule leaves exactly `MaybeScrolled`; the player's facing must be present, since the source unwraps it |
| CameraSystem.MaybeUpdateCamera | src/ecs/systems/render_system/camera_system.rs:81-92 | returns `MaybeScrolled` of the input camera, which is a value and stays as it was; size and speed are kept |
| CameraSystem.MaybeScrolledChangesIffBothRules | src/ecs/systems/render_system/camera_system.rs:84-91 | the camera changes iff both rules hold and the step speed·dt is nonzero, and then only on the facing's axis; size and speed are kept |
| CameraSystem.KeyRulesAgreeWithDirectionRules | src/ecs/systems/camera_system.rs:43-79 | for an arrow key, the key-keyed rules agree with the direction-keyed rules for that direction |
| CameraSystem.OtherKeyNeverScrolls | src/ecs/systems/camera_system.rs:63-79 | for a non-arrow key the edge rule is false, the bounds rule true, and scrolling is a no-op |
| PhysicsSystem.InitialPlayerPhysics | src/ecs/systems/physics_system/physics_system.rs:7-19 | the player starts at the initial position with humanoid size, speed 125, facing down, not walking |
| PhysicsSystem.GenerateNpcPhysics | src/ecs/systems/physics_system/physics_system.rs:21-39 | an NPC sits at integer coordinates in [300, 900) × [200, 700), with humanoid size, speed 0, no facing, not walking |
| PhysicsSystem.InitialPlayerPlacement | src/ecs/systems/physics_system/physics_system.rs:7-39 | the initial player is inside the world and never overlaps a generated NPC |
| PhysicsSystem.LastCollision | src/ecs/systems/physics_system/physics_system.rs:71-81 | the result is the highest index whose slot holds a body the candidate overlaps; it is none iff no slot does; empty slots never count |
| PhysicsSystem.ScanCollisions | src/ecs/systems/physics_system/physics_system.rs:69-81 | the scan loop reports a collision iff some body is hit, and then leaves the focus on the highest index hit; otherwise the focus is unchanged |
| PhysicsSystem.DirectionAfter | src/ecs/systems/physics_system/physics_system.rs:83-91 | the facing comes from the last held key when it is an arrow, and is kept otherwise |
| PhysicsSystem.KeyStep | src/ecs/systems/physics_system/physics_system.rs:54-96 | one key: the camera is decided on the candidate; a hit leaves the player as it was, with the focus on the last body hit; no hit clears the focus and commits the candidate, turned toward the last held key |
| PhysicsSystem.UpdatePlayerPhysics | src/ecs/systems/physics_system/physics_system.rs:43-99 | the loop's result is `PlayerPhysicsAfter` of the old state: with no key held only `walking` becomes false and focus and camera are unchanged; otherwise it is every held key's step, in order, each taken from the state the previous one left |
| PhysicsSystem.ResolveKeepsPlayerClear | src/ecs/systems/physics_system/physics_system.rs:69-96 | a player clear of every body stays clear, since each step is all-or-nothing |
| PhysicsSystem.ResolveKeepsPlayerInWorld | src/ecs/systems/physics_system/physics_system.rs:54-57 | a player that fits and starts inside the world stays inside it |
| PhysicsSystem.ResolveFocusNamesABody | src/ecs/systems/physics_system/physics_system.rs:71-81 | after at least one key the focus is none or names a slot holding a body |
| PhysicsSystem.ResolveDirection | src/ecs/systems/physics_system/physics_system.rs:83-91 | the final facing is the initial one or the last held arrow's, never the key being processed |
| PhysicsSystem.CameraIgnoresCollisions | src/ecs/systems/physics_system/physics_system.rs:58-67 | the camera moves the same whether or not the step is refused |
| PhysicsSystem.RefusedStepKeepsPlayer | src/ecs/systems/physics_system/physics_system.rs:69-96 | a candidate overlapping body j leaves the player exactly as before, with the focus at j or above |
| PhysicsSystem.ResolveKeepsCameraShape | src/ecs/systems/physics_system/physics_system.rs:58-67 | the camera's size and speed never change in the loop |
| PhysicsSystem.PlayerPhysicsAfterKeepsSettled | src/ecs/systems/physics_system/physics_system.rs:43-99 | one frame keeps the player inside the world and facing some way, keeps the focus on a body, keeps a clear player clear, and keeps the camera's shape |
| Loading.DeskPhysics | src/ecs/game_state.rs:174-186 | desk n sits at (200, 120·n) with desk size 150×70, speed 0, no facing, not walking |
| Loading.DeskRowUpTo | src/ecs/game_state.rs:172-190 | desks 2 to n−1 in order, one slot each |
| Loading.DeskRowLayout | src/ecs/game_state.rs:172-190 | the first desk row is 4 desks at x = 200 and y = 240, 360, 480, 600 |
| Game.NpcBodies | src/ecs/game_state.rs:158-170 | one generated body per NPC, at its given position |
| Game.NpcSlots | src/ecs/game_state.rs:158-170 | one NPC slot per record, copying its id and name |
| Game.NpcInteractions | src/ecs/game_state.rs:158-170 | one interaction slot per record, holding its main interaction |
| Game.InitialPlayerClear | src/ecs/game_state.rs:127-147 | the initial player overlaps no NPC and no desk |
| Game.GameState.constructor | src/ecs/game_state.rs:110-150 | the opening position, facing and size of the player; the camera centred on the player; a world of 2000×1000; no conversation, no focus, frame 0; NPC slots then the desk row; the invariant and a player clear of every body |
| Game.GameState.LoadInitialComponents | src/ecs/game_state.rs:153-156 | appends every NPC slot, then the 4 desk slots, and nothing else changes |
| Game.GameState.AddNpcs | src/ecs/game_state.rs:158-170 | appends one slot per NPC record, with its body, its NPC and its main interaction |
| Game.GameState.AddFirstDeskRow | src/ecs/game_state.rs:172-190 | appends the 4 desks, with no NPC and no interaction |
| Game.GameState.AddEntity | src/ecs/game_state.rs:192-201 | appends exactly one slot to each of the three collections, whose lengths stay equal |
| Game.GameState.Update | src/ecs/game_state.rs:36-55 | during a conversation the player, focus and camera are unchanged; otherwise player and focus come from the resolver on the held arrows, and the camera scrolls by `MaybeScrolled` on the new player; collections, world and frames are unchanged; the invariant, clearance and dialog readiness are kept |
| Game.GameState.KeyDownEvent | src/ecs/game_state.rs:104-106 | only the conversation changes, to what the key handlers decide; a panic leaves it as it was; with every stored dialog well-formed no panic happens |
| Game.GameState.Draw | src/ecs/game_state.rs:99 | the frame counter grows by exactly 1, and nothing else changes |
| Game.ReturnOnFocusedNpcStartsItsDialog | src/ecs/game_state.rs:104-106 | on a loaded store, Return with the focus on NPC i starts i's main interaction, and with the focus on a desk starts nothing |
| EcsStore.GetWyeworkersNpcs | src/ecs/ecs.rs:128-135 | exactly the four names, in fixed order, pairwise distinct |
| EcsStore.Bodies | src/ecs/ecs.rs:88-98 | one body slot per given NPC body, in order; the World store builds its NPC bodies with it too (src/ecs/world.rs:84-95) |
| EcsStore.NamedNpcs | src/ecs/ecs.rs:88-98 | one NPC slot per name, with no roster id; the World store builds its NPC slots with it too (src/ecs/world.rs:84-95) |
| EcsStore.Ecs.constructor | src/ecs/ecs.rs:18-30 | empty collections, no conversation, no focus |
| EcsStore.Ecs.LoadInitialComponents | src/ecs/ecs.rs:32-35 | the four NPCs, then the 4 desks; the player, conversation and focus are unchanged |
| EcsStore.Ecs.AddNpcs | src/ecs/ecs.rs:88-98 | one slot per roster name, with its body |
| EcsStore.Ecs.AddInnanimateObjects | src/ecs/ecs.rs:100-102 | appends the desk row, with no NPCs |
| EcsStore.Ecs.AddFirstDeskRow | src/ecs/ecs.rs:104-120 | appends desks 2 to 5, with no NPCs |
| EcsStore.Ecs.AddEntity | src/ecs/ecs.rs:122-125 | appends one slot to each collection, whose lengths stay equal |
| EcsStore.Ecs.Update | src/ecs/ecs.rs:37-52 | during a conversation the player and focus are untouched; otherwise they are the resolver's result on the held arrows |
| EcsStore.Ecs.BeginInteraction | src/ecs/ecs.rs:65-81 | a conversation targeting the focus starts iff the focus is in range and names an NPC slot; otherwise the conversation is unchanged, including a focus past the end |
| EcsStore.Ecs.EndInteraction | src/ecs/ecs.rs:83-86 | clears both the conversation and the focus |
| EcsStore.LoadedLayout | src/ecs/ecs.rs:32-35 | after loading, slots 0 to 3 are the named NPCs with their bodies, and slots 4 to 7 are desks without NPCs |
| WorldStore.GetWyeworkersNpcs | src/ecs/world.rs:135-142 | exactly the four names as written, in fixed order, pairwise distinct |
| WorldStore.PlayerIndices | src/ecs/world.rs:128-131 | an index is listed iff its player slot holds a player; the list is strictly increasing |
| WorldStore.Engaged | src/ecs/world.rs:57-72 | a player with focus id gets an interaction targeting id; a player without focus, or an empty slot, is unchanged |
| WorldStore.EngagedIdempotent | src/ecs/world.rs:57-72 | engaging twice is engaging once |
| WorldStore.World.constructor | src/ecs/world.rs:17-29 | all four collections are empty |
| WorldStore.World.LoadInitialComponents | src/ecs/world.rs:31-35 | the player, then the four NPCs, then the 4 desks; the player list gains exactly the player's index |
| WorldStore.World.AddPlayer | src/ecs/world.rs:74-82 | adds a player with no interaction and no focus, and lists its index |
| WorldStore.World.AddNpcs | src/ecs/world.rs:84-95 | one NPC slot per name, with its body and no player |
| WorldStore.World.AddInnanimateObjects | src/ecs/world.rs:97-99 | appends the desk row, with no players and no NPCs |
| WorldStore.World.AddFirstDeskRow | src/ecs/world.rs:101-117 | appends desks 2 to 5, with no players and no NPCs |
| WorldStore.World.AddEntity | src/ecs/world.rs:119-132 | one slot is appended to each collection; the player list gains the new index iff the player part is present |
| WorldStore.World.BeginInteraction | src/ecs/world.rs:57-72 | every player slot becomes its engaged form, and the other collections and the player list are unchanged |
| WorldStore.PlayerIndicesOfVacant | src/ecs/world.rs:128-131 | appending slots without players adds nothing to the player list |
| WorldStore.EngagedKeepsPlayerIndices | src/ecs/world.rs:57-72 | engaging the players never changes which slots hold players |
| WorldStore.LoadedLayout | src/ecs/world.rs:31-35 | after loading: the player at slot 0, NPCs at 1 to 4, desks at 5 to 8, and the player list is [0] |
| TextureAtlas.FirstFrame | src/ecs/atlas.rs:53 | the position of the first frame whose filename is the name |
| TextureAtlas.CreateSprite | src/ecs/atlas.rs:48-68 | the sprite has the first matching frame's rectangle and its w and h as width and height, cut against the reference rect (0, 0, meta.w, meta.h) |
| TextureAtlas.LaterDuplicatesIgnored | src/ecs/atlas.rs:53 | frames after the first one with a name never change the sprite |
| TextureAtlas.FirstFrameOfPrefix | src/ecs/atlas.rs:53 | the first match is unchanged when frames are appended |
| PlayerSprites.IndexFromDirection | src/ecs/sprites/player_sprite.rs:91-98 | the row is below 4 and agrees with `to_index`, and its name is the facing's name |
| PlayerSprites.IndexFromDirectionBijective | src/ecs/sprites/player_sprite.rs:91-98 | distinct facings have distinct rows, every row below 4 is some facing's, and the four names are distinct |
| PlayerSprites.DirectionFromIndex | src/ecs/sprites/player_sprite.rs:100-108 | 0 to 3 are "up", "right", "down" and "left"; any other index is "right" |
| PlayerSprites.AnimationSpriteIndex | src/ecs/sprites/player_sprite.rs:110-121 | the walking frame is (frames mod 70) div 10, within 0 to 6 |
| PlayerSprites.AnimationPeriodic | src/ecs/sprites/player_sprite.rs:110-121 | the walking animation repeats every 70 frames |
| PlayerSprites.AnimationMonotoneInCycle | src/ecs/sprites/player_sprite.rs:110-121 | within a cycle the walking frame never goes back |
| PlayerSprites.NewPlayerSprite | src/ecs/sprites/player_sprite.rs:21-45 | 4 idle sprites `player-idle-d` and 4 rows of 7 walking sprites `player-<facing>-f`, each the atlas sprite of that name; position (500, 500) |
| PlayerSprites.WalkingFrames | src/ecs/sprites/player_sprite.rs:30-37 | the inner loop yields exactly seven frames, frame f being the atlas sprite `player-<facing>-f` of the row's facing |
| PlayerSprites.SelectSprite | src/ecs/sprites/player_sprite.rs:54-76 | standing shows the facing's idle sprite, and walking the facing's row at the animation frame; the facing must be present |
| PlayerSprites.SelectedSpriteName | src/ecs/sprites/player_sprite.rs:21-76 | on a table built from an atlas, the sprite drawn is that atlas's `player-idle-<row>` or `player-<facing>-<frame>` |
| OfficeSprites.AsI32 | src/ecs/sprites/office_sprite.rs:77 | `frames as i32` lies in the signed 32-bit range and is the count itself below 2^31 |
| OfficeSprites.AsI32Congruent | src/ecs/sprites/office_sprite.rs:77 | the cast keeps the count's residue modulo 2^32 |
| OfficeSprites.RemI32 | src/ecs/sprites/office_sprite.rs:77 | Rust's `%`: for a non-negative dividend the ordinary remainder, for a negative one a remainder in (-b, 0] that is minus the remainder of its magnitude |
| OfficeSprites.AnimationSpriteIndex | src/ecs/sprites/office_sprite.rs:75-82 | the frame is 0 or 1; below the `i32` wrap it is 0 iff frames mod 240 < 120 + 10·id |
| OfficeSprites.AnimationPeriodic | src/ecs/sprites/office_sprite.rs:15 | below the `i32` wrap the desk animation repeats every 240 frames |
| OfficeSprites.LaterAnimationStaysLonger | src/ecs/sprites/office_sprite.rs:76-81 | raising the animation id never turns frame 0 into frame 1 |
| OfficeSprites.LongOffsetsNeverAnimate | src/ecs/sprites/office_sprite.rs:76-81 | from id 12 on, the frame is always 0, wrapped counts included |
| OfficeSprites.AnimationAtWrap | src/ecs/sprites/office_sprite.rs:77 | at 2^31 frames the `i32` cast makes an id-0 desk show frame 0, although 2^31 mod 240 = 128 lies in the second half of the cycle |
| OfficeSprites.NewOfficeSprite | src/ecs/sprites/office_sprite.rs:23-46 | exactly desk types 0 and 1 are registered, each with its 2 atlas frames `desk-type-a/b-0/1`; position (0, 0) |
| OfficeSprites.DeskSprite | src/ecs/sprites/office_sprite.rs:60-61 | the sprite is one of the desk type's first two frames; the type must be registered, since the source unwraps the lookup |
| OfficeSprites.DrawnDeskSprite | src/ecs/sprites/office_sprite.rs:52-72 | on a table built from an atlas, a desk type can be drawn iff it is 0 or 1, and it shows the atlas frame its animation index names |
| Tiles.CountBelow | src/ecs/sprites/tile_sprite.rs:60-62 | a non-empty range yields at least one value, and never more values than its limit |
| Tiles.CountBelowMeaning | src/ecs/sprites/tile_sprite.rs:60-62 | the k-th value of `(0..limit).step_by(step)` exists iff k·step < limit |
| Tiles.CountBelowIsCeiling | src/ecs/sprites/tile_sprite.rs:60-62 | the number of values is ⌈limit / step⌉ |
| Tiles.CreateTiles | src/ecs/sprites/tile_sprite.rs:53-70 | the tiles are the rows at y = 0, h, 2h, … below 1000, appended in order, each row being the tiles at x = 0, w, 2w, … below 2000; the tile's size must be at least 1, since `step_by(0)` panics; the same code is copied at src/ecs/tile.rs:49-72 and src/ecs/sprites/tile.rs:56-73, which this member models too |
| Tiles.TileCount | src/ecs/sprites/tile_sprite.rs:60-68 | there are ⌈1000/h⌉·⌈2000/w⌉ tiles |
| Tiles.RowMajor | src/ecs/tile.rs:56-70 | row-major layout: the tile at row r and column c has index r·cols + c, sits at (c·w, r·h) and shows the floor sprite |
| Tiles.RowsPrefix | src/ecs/sprites/tile_sprite.rs:60-68 | appending rows never moves or changes a tile already placed |
| Tiles.TileAt | src/ecs/sprites/tile.rs:63-71 | tile k sits at ((k mod cols)·w, (k div cols)·h), strictly inside 2000×1000, and shows the floor sprite |
| Tiles.FirstTileAtOrigin | src/ecs/tile.rs:56-67 | the grid is not empty and its first tile is at (0, 0) |
| Entities.Player.constructor | src/entities/player.rs:16-24 | a 25×25 square centred at (200, 300) |
| Entities.Player.Walk | src/entities/player.rs:46-61 | the centre moves `PLAYER_SPEED`·dt along the key's axis and is then clamped to the drawable area; the size never changes |
| Entities.WalkedInside | src/entities/player.rs:57-60 | after a walk, a player that fits its area is inside it |
| Entities.WalkAwayFromEdges | src/entities/player.rs:48-55 | away from the edges a walk moves exactly `PLAYER_SPEED`·dt along the key's axis |
| Entities.OtherKeyDoesNotMove | src/entities/player.rs:54 | a non-arrow key leaves a player that is inside its area where it was |
| Entities.Map.constructor | src/entities/map.rs:14-25 | a fresh player at its starting place, and exactly one desk, at (200, 200) |
| Entities.Map.Update | src/entities/map.rs:27-36 | the player ends where one walk per pressed arrow leaves it, in the order Up, Down, Left, Right; the desks never change |
| Entities.NothingPressedNoMove | src/entities/map.rs:29-33 | with no arrow pressed, the player does not move |
| Entities.WalkedAllInside | src/entities/map.rs:27-36 | a player that starts inside the area stays inside it, whatever keys are held |
| Entities.SingleKeyUpdate | src/entities/map.rs:28-33 | with a single arrow pressed, an update is exactly one walk in that direction |

## Left out

- Drawing. This covers every `draw` body, the sprite batches, meshes, text, colours and the dialog box layout. The sprite selectors stop at which sprite is drawn, so the screen position, the draw parameters and `Rect::fraction` are left out.
- I/O and parsing: `Atlas::parse_atlas_json`, `create_batch_sprite` and the NPC loader. The parsed atlas and NPC records are inputs.
- Engine calls. `ggez::timer::delta` is `dt`, `keyboard::is_key_pressed` is a predicate, `graphics::drawable_size` is an area argument, and the random positions are integer arguments with the source's ranges as a precondition.
- `f32` rounding. Coordinates are exact reals.
- The `usize` overflow of the frame counter. Frames are unbounded naturals.
- The `i32` overflow of `animation_id * 10` in the desk animation. Ids are unbounded integers. The `frames as i32` cast itself is modelled.
- `main.rs`: window and event-loop setup.
- GameState.Update: the resolver that `src/ecs/game_state.rs:42-48` calls has a five-argument form returning only `Physics`, and it is not part of this model. It is modelled by `src/ecs/systems/physics_system/physics_system.rs:43-99`, taking that resolver's player and focus and leaving its camera unused, because `game_state.rs` scrolls the camera itself afterwards.
- EcsStore.Ecs.Update: the resolver this snapshot calls is not part of this model, so it is a function-typed parameter. The contract states only the gating around it.
- `World::update`: its resolver `update_physics` and the generator `generate_physics` are not part of this model. The update is left out, and the World's bodies are arguments.
- `generate_physics` in `ecs.rs`: `Ecs::new` (`src/ecs/ecs.rs:21`) and `add_npcs` (`src/ecs/ecs.rs:92`) call it, and it is not part of this model. The bodies it would produce are arguments: `playerPhysics` of `EcsStore.Ecs.constructor` and `npcPhysics` of `EcsStore.Ecs.AddNpcs`.
- The desks of `ecs.rs` and `world.rs`: these use a four-argument `Physics::new` that is not part of this model. They are modelled with the same desk body as `game_state.rs`.
- Entities.Player.Walk: it calls `clamp_self` on the prototype's `Position`, which `src/positioning/positioning.rs` does not define. It is modelled with the semantics of that file's `clamp_object`.
- The one-argument `Interaction::new(id)` of `ecs.rs` and `world.rs` is not part of this model. It is modelled as an engagement record that only targets the entity id.
- Panics. `Atlas::create_sprite` on a missing name, the `unwrap`s in the sprite selectors, and `step_by(0)` in the tile grids are preconditions.
- In the dialog handlers, a panic is an explicit `Panic` outcome. The store then keeps its conversation, where the real program would abort.
- InputSystem.UpdateInteraction: follows a debug build, where `len() - 1` on an empty option list traps, so Down on `options == Some([])` is a `Panic`. A release build wraps the `usize` subtraction to its maximum, and Down would then move the cursor to 1. The release behaviour is not modelled.
- The verbatim duplicate of `update_player_physics` at `src/ecs/systems/physics_system/physics_system.rs:103-159` is modelled once.
- The constant `DEFAULT_CAMERA_OFFSET` that `src/ecs/systems/camera_system.rs:3` imports from `crate::ecs::constants` is not defined in `src/ecs/constants.rs`. The key-keyed bounds rule uses the value 80 from `src/ecs/utils/constants.rs:20`, the same value the other camera copies use.
- The tile count constant `NUMBER_OF_TILES` is unused in the source and is left out.
