# Platformer game logic, modelled in Dafny

A model of the game logic of a small pygame platformer (`tutorial.py`): the
player character's controller and animator, the translation of the movement
keys into velocity, the vertical collision pass against the terrain blocks,
the horizontal camera, the background tile grid, and one iteration of the
game loop. Rendering, assets and the host event loop are abstracted away.

Modules (one file each):

- `Config` (config.dfy): window size 800 x 600, 60 FPS, walking speed 5,
  gravity 1, animation delay 3, scroll area 200, block size 96.
- `Geometry` (geometry.dfy): the integer part of pygame's `Rect` (setting
  `bottom` or `top` moves the rectangle and keeps its size) and terrain
  `Block`s.
- `Arith` (arith.dfy): division facts shared by the proofs.
- `PlayerModel` (player.dfy): the clip choice `ChooseClip`, the frame index
  `FrameIndex`, the sprite-table keys, and the `Player` class. Every method
  of `Player` is proved against a pure transition function on a `Snapshot`
  of the player's fields (`AfterJump`, `AfterMoveLeft`, `AfterLanded`,
  `AfterUpdateSprite`, `AfterLoop`, ...); the lemmas beside them state what
  each transition does and keeps. `Valid()` is the class invariant: the
  sprite table holds a non-empty clip for every clip and direction, and at
  most two jumps are in progress.
- `Collision` (collision.dfy): `handle_vertical_collision` as a loop over
  the blocks, proved against `SweepBlocks`, a fold of one collision step
  over the block list; `handle_move` and the key rule `HeldVelocity`.
- `Background` (background.dfy): `get_background`'s nested loops, proved
  against the grid `TileGrid`, with its size, shape and coverage lemmas.
- `Game` (game.dfy): the camera rule `Scroll`, the event loop of a frame
  (`Dispatch`, `ProcessEvents`), one pass of the main loop (`GameStep`), and
  the level and start state `main` builds.

Behaviour of the code that the model keeps, as written:

- The "fall" clip can never be chosen: its branch is an `elif` under
  `y_vel != 0`, so it only runs when `y_vel == 0`, and then `y_vel > 2` is
  false (`ClipSelection`). A design that lists "fall" as a reachable state
  is not what the code does.
- Moving horizontally always shows "run", even in the air.
- `handle_vertical_collision` appends every block to its result, not only
  the colliding ones, so a completed pass returns its input list.
- When rising into a block, the code first moves the player under it and
  then calls `player.hit.head()`, an attribute the player does not have; the
  pass ends there with an `AttributeError`, which the model returns as the
  `AttributeError` outcome. `hit_head` itself is modelled but no code path
  reaches it.
- The background grid has `(800 // w + 1) * (600 // h + 1)` tiles (floor
  division plus one), not a ceiling-based count; when `w` divides 800 the
  last column starts at x = 800, outside the window.
- `y_vel` is a fractional number: the gravity ramp adds `fall_count / 60`
  per frame until it reaches 1, while the rectangle's y is stored as a
  truncated integer. So the collision pass can see `dy > 0` although the
  rectangle has not moved, and in the air `y_vel` is almost never exactly 0.
- The jump bound `jump_count <= 2` is kept by the event loop's guard, not by
  `jump` itself; `Player.Jump` states that the bound survives exactly when
  fewer than two jumps were in progress.

## Model

| member | source | states |
|---|---|---|
| PlayerModel.SpriteKeyInjective | tutorial.py:124-125 | the table key is clip name + "_" + direction; two clip/direction pairs share a key exactly when they are equal |
| PlayerModel.ClipSelection | tutorial.py:110-122 | the clip is "run" iff x_vel != 0; "jump" iff x_vel == 0, y_vel != 0 and one jump; "double_jump" likewise with two jumps; "idle" in every other case; "fall" never |
| PlayerModel.FrameIndex | tutorial.py:126 | the frame index (animation_count // 3) % len(sprites) lies inside a non-empty clip |
| PlayerModel.FrameIndexAdvances | tutorial.py:126-128 | three frames later the shown frame is the next one of the clip, wrapping round at its end |
| PlayerModel.FrameIndexHolds | tutorial.py:126-128 | within a window of three frames the shown frame does not change |
| PlayerModel.TruncateBounds | tutorial.py:77-79 | storing a fractional coordinate drops less than one unit, toward zero |
| PlayerModel.GravityRamp | tutorial.py:94 | the gravity increment is 0 after a landing, stays in [0, 1], never decreases as the fall goes on, equals fall_count / fps before fps falling frames and is 1 from then on |
| PlayerModel.JumpEffect | tutorial.py:69-74 | a jump sets y_vel to -8, animation_count to 0, adds exactly one jump, resets fall_count on the first jump and keeps it otherwise, and changes nothing else |
| PlayerModel.DoubleJumpFromGround | tutorial.py:69-74 | two jumps from the ground give jump_count 2, fall_count 0 and y_vel -8 |
| PlayerModel.LandedEffect | tutorial.py:100-103 | landing zeroes fall_count, y_vel and jump_count, keeps rect, x_vel, direction, animation_count and sprite, and is idempotent |
| PlayerModel.MoveLeftEffect | tutorial.py:81-85 | x_vel becomes -vel and direction left; animation_count becomes 0 if the player faced right and keeps its value otherwise; a second call in a row changes nothing |
| PlayerModel.MoveRightEffect | tutorial.py:87-91 | the mirror image of MoveLeftEffect |
| PlayerModel.UpdateSpriteEffect | tutorial.py:109-133 | the frame shown belongs to the clip ChooseClip names for the current direction; animation_count rises by exactly one; the rectangle keeps its top-left corner and takes the frame's size; velocities and counters are untouched |
| PlayerModel.Player.constructor | tutorial.py:59-67 | a new player has the given rectangle, zero velocities and counters, faces left and is valid |
| PlayerModel.Player.Jump | tutorial.py:69-74 | the new fields are AfterJump of the old; the invariant holds afterwards exactly when it held and fewer than two jumps were in progress |
| PlayerModel.Player.Move | tutorial.py:77-79 | the rectangle moves by dx and by dy, the new y truncated toward zero; nothing else changes |
| PlayerModel.Player.MoveLeft | tutorial.py:81-85 | the new fields are AfterMoveLeft of the old |
| PlayerModel.Player.MoveRight | tutorial.py:87-91 | the new fields are AfterMoveRight of the old |
| PlayerModel.Player.Loop | tutorial.py:93-98 | y_vel gains min(1, fall_count / fps * GRAVITY), the rectangle moves by the velocities (its y truncated to an integer), one more falling frame, then the sprite update, as AfterLoop of the old fields |
| PlayerModel.Player.Landed | tutorial.py:100-103 | the new fields are AfterLanded of the old, and the player is valid whenever the sprite table is complete |
| PlayerModel.Player.HitHead | tutorial.py:105-107 | y_vel is negated; nothing else changes |
| PlayerModel.Player.UpdateSprite | tutorial.py:109-129 | the new fields are AfterUpdateSprite of the old |
| PlayerModel.Player.Update | tutorial.py:131-133 | the rectangle takes the current frame's size at the same top-left corner |
| Collision.SweepStopsAtRaise | tutorial.py:188-190 | once the ascending branch has raised, no later block affects the outcome |
| Collision.SweepStill | tutorial.py:183-192 | with dy == 0 the pass never moves the player, never lands and never raises |
| Collision.SweepFalling | tutorial.py:183-187 | with dy > 0 the pass never raises and moves the player only vertically; after a landing the player stands on the last block that collided (its bottom equals that block's top, and no later block collided); otherwise the rectangle is unchanged |
| Collision.SweepFallingLands | tutorial.py:183-187 | with dy > 0 the pass lands exactly when some block collides with the player's rectangle as it is when that block is tested |
| Collision.SweepRising | tutorial.py:188-190 | with dy < 0 the pass never lands; it raises iff some block collides with the unmoved rectangle, at the first such block, with the player's top at that block's bottom; otherwise the rectangle is unchanged |
| Collision.HandleVerticalCollision | tutorial.py:181-194 | the player's rectangle is the sweep's, landed() has run exactly when the sweep landed, and the result is the whole input list in order unless the ascending branch raised |
| Collision.HeldVelocity | tutorial.py:201-205 | the key rule yields -5, 0 or 5; positive exactly when D is held, negative exactly when only A is held |
| Collision.KeysEffect | tutorial.py:201-205 | after the keys, x_vel is HeldVelocity, the player faces the last key applied (right when both are held, with the animation restarted), and only x_vel, direction and animation_count change |
| Collision.HandleMove | tutorial.py:198-207 | the keys are applied to the old fields, then the collision pass runs with the new y_vel as dy, with the outcome and new fields it prescribes |
| Background.GetBackgroundTiles | tutorial.py:160-165 | the nested loops produce exactly TileGrid(w, h) |
| Background.TileGridShape | tutorial.py:162-165 | the grid has (800 // w + 1) * (600 // h + 1) origins, the one of column i and row j at position i * rows + j being (i * w, j * h) |
| Background.TileGridOrigins | tutorial.py:162-165 | every origin is (i * w, j * h) for a column and row of the grid, inside [0, 800] x [0, 600] |
| Background.TileGridCovers | tutorial.py:162-165 | every pixel of the 800 x 600 window lies in some tile |
| Game.ScrollStep | tutorial.py:244-245 | the offset moves by exactly x_vel or not at all, and moves exactly when heading right with the right edge at or past 600 on screen, or left with the left edge at or before 200 |
| Game.ScrollUnchangedInsideBand | tutorial.py:244-245 | standing still, or strictly inside the band between the scroll areas, the offset is unchanged |
| Game.ScrollKeepsScreenPosition | tutorial.py:244-245 | when the camera scrolls after a move by x_vel, the player's screen position is what it was before the move |
| Game.DispatchJumps | tutorial.py:231-238 | from at most two jumps, the events add one jump per Space key-down before the first Quit, capped at two, and leave position, x_vel, direction and sprite alone |
| Game.ProcessEvents | tutorial.py:231-238 | the loop returns false exactly when a Quit is among the events, keeps the jump bound, and leaves the player as Dispatch prescribes |
| Game.GameStep | tutorial.py:228-245 | one frame keeps the player valid and leaves it as the events, then loop(FPS), then the keys and the collision pass make it; x_vel ends at HeldVelocity; the outcome is AttributeError exactly when that pass raised, otherwise the block list, and then the camera moves by Scroll |
| Game.LevelLayout | tutorial.py:215-222 | the level has 27 blocks: 25 floor blocks on the window's bottom edge, gap-free from x = -864 to x = 1536, a block standing on the floor at x = 0, and a floating one |
| Game.NewGame | tutorial.py:212-226 | the loop starts with the player at (100, 100), 50 x 50, at rest facing left, the level's blocks and camera offset 0 |

## Left out

- Asset loading (`load_sprite_sheets`, `flip`, `get_block`, the image load in `get_background`) is file and image I/O; the sprite table is a constructor parameter mapping keys to clips of frames, each frame reduced to its size, and the background image's size is the pair of parameters `w`, `h`.
- Drawing (`draw`, `Player.draw`, `Object.draw`) and `pygame.display.update` produce no state the model tracks.
- Pixel masks and `pygame.sprite.collide_mask` are a parameter `collide` over the two rectangles; the player's mask is not tracked.
- `clock.tick`, `pygame.quit` and `quit` are host plumbing; the `while run` loop is modelled by its body, `GameStep`.
- Floating-point rounding: `y_vel`, the gravity ramp and `dy` are exact reals where the program uses binary floats, so a rounding error that would shift a truncated y or turn a zero test is not modelled. pygame's `Rect` is taken to truncate a fractional coordinate toward zero when it stores it.
- PlayerModel.Player.HitHead: the stray `self.count = 0` attribute it creates is not modelled; nothing reads it.
- PlayerModel.Player.UpdateSprite: the `KeyError` of a missing clip and the `ZeroDivisionError` of an empty one are excluded by the class invariant, which asks the sprite table for every clip and direction, as the asset folder provides them.
- `Object`'s `name`, `width`, `height` and `image` fields are not modelled; a `Block` is its rectangle.
