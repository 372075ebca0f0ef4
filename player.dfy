// The player character: its animation-clip choice, its frame counter and the
// controller methods that the game loop calls on it every frame.
module PlayerModel {
  import opened Config
  import opened Geometry
  import opened Arith

  datatype Option<T> = None | Some(value: T)

  /** The facing direction, the strings "left" and "right" in the program. */
  datatype Direction = Left | Right

  function DirectionName(d: Direction): string
  {
    match d
    case Left => "left"
    case Right => "right"
  }

  /** The animation clips the sprite table provides for the character. */
  datatype Clip = Idle | Run | Jump | DoubleJump | Fall

  function ClipName(c: Clip): string
  {
    match c
    case Idle => "idle"
    case Run => "run"
    case Jump => "jump"
    case DoubleJump => "double_jump"
    case Fall => "fall"
  }

  /** The key under which the sprite table stores a clip facing a direction. */
  function SpriteKey(c: Clip, d: Direction): string
  {
    ClipName(c) + "_" + DirectionName(d)
  }

  /** Different clip/direction pairs are stored under different keys. */
  lemma SpriteKeyInjective(c1: Clip, d1: Direction, c2: Clip, d2: Direction)
    ensures SpriteKey(c1, d1) == SpriteKey(c2, d2) <==> c1 == c2 && d1 == d2
  {
    if SpriteKey(c1, d1) == SpriteKey(c2, d2) {
      var k := SpriteKey(c1, d1);
      // "left" and "right" differ four letters from the end; the clip names
      // then have equal lengths and differ in their first letter.
      assert k[|k| - 4] == (if d1 == Left then 'l' else 'i');
      assert SpriteKey(c2, d2)[|k| - 4] == (if d2 == Left then 'l' else 'i');
      assert d1 == d2;
      assert |ClipName(c1)| == |ClipName(c2)|;
      assert k[0] == SpriteKey(c2, d2)[0];
    }
  }

  /** A frame of a clip; only its size matters to the model (pixels are left out). */
  datatype Frame = Frame(width: nat, height: nat)

  /** Every clip the animator can ask for is present and has at least one frame. */
  ghost predicate SheetsComplete(sprites: map<string, seq<Frame>>)
  {
    forall c: Clip, d: Direction :: SpriteKey(c, d) in sprites && |sprites[SpriteKey(c, d)]| > 0
  }

  /**
   * The clip-selection rule of update_sprite, branch for branch: the
   * vertical-velocity branch, the falling branch, the running branch, and the
   * final override to "run" whenever the player moves horizontally.
   */
  function ChooseClip(xVel: int, yVel: real, jumpCount: int): Clip
  {
    var chosen :=
      if yVel != 0.0 then
        (if jumpCount == 1 then Jump else if jumpCount == 2 then DoubleJump else Idle)
      else if yVel > (Gravity * 2) as real then Fall
      else if xVel != 0 then Run
      else Idle;
    if xVel != 0 then Run else chosen
  }

  /**
   * What the clip choice amounts to: "run" exactly when moving horizontally,
   * "jump"/"double_jump" when standing still horizontally while moving
   * vertically after one/two jumps, "idle" otherwise. The "fall" branch sits
   * under `yVel == 0` and can never fire.
   */
  lemma ClipSelection(xVel: int, yVel: real, jumpCount: int)
    ensures ChooseClip(xVel, yVel, jumpCount) == Run <==> xVel != 0
    ensures ChooseClip(xVel, yVel, jumpCount) == Jump <==> xVel == 0 && yVel != 0.0 && jumpCount == 1
    ensures ChooseClip(xVel, yVel, jumpCount) == DoubleJump <==> xVel == 0 && yVel != 0.0 && jumpCount == 2
    ensures ChooseClip(xVel, yVel, jumpCount) == Idle <==>
              xVel == 0 && (yVel == 0.0 || (jumpCount != 1 && jumpCount != 2))
    ensures ChooseClip(xVel, yVel, jumpCount) != Fall
  {
  }

  /** Index of the frame shown when the animation counter is `count`. */
  function FrameIndex(count: nat, frames: nat): (r: nat)
    requires frames > 0
    ensures r < frames
  {
    (count / AnimationDelay) % frames
  }

  /** The shown frame steps forward once every AnimationDelay game frames, wrapping round. */
  lemma FrameIndexAdvances(count: nat, frames: nat)
    requires frames > 0
    ensures FrameIndex(count + AnimationDelay, frames) == (FrameIndex(count, frames) + 1) % frames
  {
    var q := count / AnimationDelay;
    assert (count + AnimationDelay) / AnimationDelay == q + 1;
    ModSucc(q, frames);
  }

  /** Between two steps the shown frame stays the same. */
  lemma FrameIndexHolds(count: nat, frames: nat)
    requires frames > 0
    requires count % AnimationDelay != AnimationDelay - 1
    ensures FrameIndex(count + 1, frames) == FrameIndex(count, frames)
  {
    assert (count + 1) / AnimationDelay == count / AnimationDelay;
  }

  lemma ModSucc(q: nat, n: nat)
    requires n > 0
    ensures (q + 1) % n == (q % n + 1) % n
  {
    var a, r := q / n, q % n;
    if r + 1 < n {
      DivModUnique(q + 1, n, a, r + 1);
      DivModUnique(r + 1, n, 0, r + 1);
    } else {
      DivModUnique(q + 1, n, a + 1, 0);
      DivModUnique(r + 1, n, 1, 0);
    }
  }

  /** The frame update_sprite shows for a clip, a direction and an animation counter. */
  function SpriteFor(sprites: map<string, seq<Frame>>, c: Clip, d: Direction, count: nat): Frame
    requires SheetsComplete(sprites)
  {
    var frames := sprites[SpriteKey(c, d)];
    frames[FrameIndex(count, |frames|)]
  }

  /** Conversion of a number to an integer coordinate: truncation toward zero. */
  function Truncate(r: real): int
  {
    if r >= 0.0 then r.Floor else -((-r).Floor)
  }

  /** Truncation drops less than one unit and never moves away from zero. */
  lemma TruncateBounds(r: real)
    ensures r >= 0.0 ==> 0.0 <= Truncate(r) as real <= r < Truncate(r) as real + 1.0
    ensures r < 0.0 ==> Truncate(r) as real - 1.0 < r <= Truncate(r) as real <= 0.0
  {
  }

  function MinReal(a: real, b: real): real
  {
    if a <= b then a else b
  }

  /** The gravity ramp of loop: the velocity added in a frame after `fallCount` falling frames. */
  function GravityStep(fallCount: nat, fps: int): real
    requires fps > 0
  {
    MinReal(1.0, (fallCount as real / fps as real) * Gravity as real)
  }

  /**
   * The ramp starts at zero, adds nothing negative, never exceeds one, grows
   * with the fall counter, and is full (one) exactly from `fps` falling frames
   * on; before that it is fallCount / fps.
   */
  lemma GravityRamp(fallCount: nat, fps: int)
    requires fps > 0
    ensures 0.0 <= GravityStep(fallCount, fps) <= 1.0
    ensures GravityStep(0, fps) == 0.0
    ensures GravityStep(fallCount, fps) <= GravityStep(fallCount + 1, fps)
    ensures GravityStep(fallCount, fps) == 1.0 <==> fallCount >= fps
    ensures fallCount < fps ==> GravityStep(fallCount, fps) * fps as real == fallCount as real
  {
    var f, n := fallCount as real, fps as real;
    assert f / n * n == f;
    assert (f + 1.0) / n == f / n + 1.0 / n;
    if fallCount >= fps {
      assert f / n >= 1.0 by { assert f >= n; }
    } else {
      assert f / n < 1.0 by { assert f < n; }
    }
  }

  /** The fields of a Player, as one value. */
  datatype Snapshot = Snapshot(
    rect: Rect, xVel: int, yVel: real, direction: Direction,
    animationCount: nat, fallCount: nat, jumpCount: nat, sprite: Option<Frame>)

  // Each controller method of Player, as a function from the fields before the
  // call to the fields after it.

  function AfterJump(s: Snapshot): Snapshot
  {
    var jumps := s.jumpCount + 1;
    s.(yVel := (-Gravity * 8) as real, animationCount := 0, jumpCount := jumps,
       fallCount := if jumps == 1 then 0 else s.fallCount)
  }

  /**
   * Moving adds the velocities to the rectangle's position; the rectangle
   * keeps integer coordinates, so the fractional vertical position is
   * truncated toward zero when it is stored.
   */
  function AfterMove(s: Snapshot, dx: int, dy: real): Snapshot
  {
    s.(rect := s.rect.(x := s.rect.x + dx, y := Truncate(s.rect.y as real + dy)))
  }

  function AfterMoveLeft(s: Snapshot, vel: int): Snapshot
  {
    if s.direction != Left then s.(xVel := -vel, direction := Left, animationCount := 0)
    else s.(xVel := -vel)
  }

  function AfterMoveRight(s: Snapshot, vel: int): Snapshot
  {
    if s.direction != Right then s.(xVel := vel, direction := Right, animationCount := 0)
    else s.(xVel := vel)
  }

  function AfterLanded(s: Snapshot): Snapshot
  {
    s.(fallCount := 0, yVel := 0.0, jumpCount := 0)
  }

  function AfterHitHead(s: Snapshot): Snapshot
  {
    s.(yVel := s.yVel * -1.0)
  }

  function AfterUpdateSprite(sprites: map<string, seq<Frame>>, s: Snapshot): Snapshot
    requires SheetsComplete(sprites)
  {
    var f := SpriteFor(sprites, ChooseClip(s.xVel, s.yVel, s.jumpCount), s.direction, s.animationCount);
    s.(animationCount := s.animationCount + 1, sprite := Some(f),
       rect := Rect(s.rect.x, s.rect.y, f.width, f.height))
  }

  function AfterLoop(sprites: map<string, seq<Frame>>, s: Snapshot, fps: int): Snapshot
    requires SheetsComplete(sprites)
    requires fps > 0
  {
    var falling := s.(yVel := s.yVel + GravityStep(s.fallCount, fps));
    var moved := AfterMove(falling, falling.xVel, falling.yVel);
    AfterUpdateSprite(sprites, moved.(fallCount := moved.fallCount + 1))
  }

  /**
   * A jump gives the upward impulse -Gravity * 8, restarts the animation and
   * counts one more jump; the fall counter restarts only on the first jump,
   * and nothing else changes.
   */
  lemma JumpEffect(s: Snapshot)
    ensures AfterJump(s).yVel == -8.0 && AfterJump(s).animationCount == 0
    ensures AfterJump(s).jumpCount == s.jumpCount + 1
    ensures AfterJump(s).fallCount == if s.jumpCount == 0 then 0 else s.fallCount
    ensures AfterJump(s).(yVel := s.yVel, animationCount := s.animationCount,
                          jumpCount := s.jumpCount, fallCount := s.fallCount) == s
  {
  }

  /** Two jumps from the ground make a double jump; the fall counter restarts once. */
  lemma DoubleJumpFromGround(s: Snapshot)
    requires s.jumpCount == 0
    ensures AfterJump(AfterJump(s)).jumpCount == 2
    ensures AfterJump(AfterJump(s)).fallCount == 0
    ensures AfterJump(AfterJump(s)).yVel == (-Gravity * 8) as real
  {
  }

  /** Landing zeroes the fall counter, vertical speed and jump count, and nothing else. */
  lemma LandedEffect(s: Snapshot)
    ensures AfterLanded(s).fallCount == 0 && AfterLanded(s).yVel == 0.0 && AfterLanded(s).jumpCount == 0
    ensures AfterLanded(s).rect == s.rect && AfterLanded(s).xVel == s.xVel
    ensures AfterLanded(s).direction == s.direction && AfterLanded(s).animationCount == s.animationCount
    ensures AfterLanded(s).sprite == s.sprite
    ensures AfterLanded(AfterLanded(s)) == AfterLanded(s)
  {
  }

  /**
   * Moving left sets the velocity to -vel and faces left; the animation
   * restarts exactly when the player was facing right, so a second call in a
   * row keeps the counter. Moving right is the mirror image.
   */
  lemma MoveLeftEffect(s: Snapshot, vel: int)
    ensures AfterMoveLeft(s, vel).xVel == -vel && AfterMoveLeft(s, vel).direction == Left
    ensures AfterMoveLeft(s, vel).animationCount == if s.direction == Right then 0 else s.animationCount
    ensures AfterMoveLeft(AfterMoveLeft(s, vel), vel) == AfterMoveLeft(s, vel)
    ensures AfterMoveLeft(s, vel).(xVel := s.xVel, direction := s.direction,
                                   animationCount := s.animationCount) == s
  {
  }

  lemma MoveRightEffect(s: Snapshot, vel: int)
    ensures AfterMoveRight(s, vel).xVel == vel && AfterMoveRight(s, vel).direction == Right
    ensures AfterMoveRight(s, vel).animationCount == if s.direction == Left then 0 else s.animationCount
    ensures AfterMoveRight(AfterMoveRight(s, vel), vel) == AfterMoveRight(s, vel)
    ensures AfterMoveRight(s, vel).(xVel := s.xVel, direction := s.direction,
                                    animationCount := s.animationCount) == s
  {
  }

  /**
   * Updating the sprite shows a frame of the clip ChooseClip names, facing the
   * current direction, at an index inside that clip; the animation counter
   * goes up by exactly one and the rectangle keeps its top-left corner.
   */
  lemma UpdateSpriteEffect(sprites: map<string, seq<Frame>>, s: Snapshot)
    requires SheetsComplete(sprites)
    ensures var t := AfterUpdateSprite(sprites, s);
            var frames := sprites[SpriteKey(ChooseClip(s.xVel, s.yVel, s.jumpCount), s.direction)];
            t.animationCount == s.animationCount + 1 &&
            t.sprite.Some? && t.sprite.value in frames &&
            t.rect.x == s.rect.x && t.rect.y == s.rect.y &&
            t.rect.width == t.sprite.value.width && t.rect.height == t.sprite.value.height &&
            t.xVel == s.xVel && t.yVel == s.yVel && t.direction == s.direction &&
            t.fallCount == s.fallCount && t.jumpCount == s.jumpCount
  {
  }

  class Player {
    /** The class-wide sprite table, read-only after loading. */
    const sprites: map<string, seq<Frame>>
    var rect: Rect
    var xVel: int
    var yVel: real
    var direction: Direction
    var animationCount: nat
    var fallCount: nat
    var jumpCount: nat
    /** The frame last chosen by UpdateSprite; absent until the first one. */
    var sprite: Option<Frame>

    /** Every clip can be animated, and at most a double jump is in progress. */
    ghost predicate Valid()
      reads this
    {
      SheetsComplete(sprites) && jumpCount <= 2
    }

    ghost function State(): Snapshot
      reads this
    {
      Snapshot(rect, xVel, yVel, direction, animationCount, fallCount, jumpCount, sprite)
    }

    constructor (x: int, y: int, width: int, height: int, sprites: map<string, seq<Frame>>)
      requires SheetsComplete(sprites)
      ensures Valid() && this.sprites == sprites
      ensures State() == Snapshot(Rect(x, y, width, height), 0, 0.0, Left, 0, 0, 0, None)
    {
      this.sprites := sprites;
      rect := Rect(x, y, width, height);
      xVel, yVel := 0, 0.0;
      direction := Left;
      animationCount, fallCount, jumpCount := 0, 0, 0;
      sprite := None;
    }

    /**
     * The method has no guard of its own, so the jump bound of Valid()
     * survives exactly when the caller checked that fewer than two jumps are
     * in progress.
     */
    method Jump()
      modifies this
      ensures State() == AfterJump(old(State()))
      ensures Valid() <==> old(Valid()) && old(jumpCount) < 2
    {
      yVel := (-Gravity * 8) as real;
      animationCount := 0;
      jumpCount := jumpCount + 1;
      if jumpCount == 1 {
        fallCount := 0;
      }
    }

    method Move(dx: int, dy: real)
      modifies this
      ensures State() == AfterMove(old(State()), dx, dy)
    {
      rect := rect.(x := rect.x + dx, y := Truncate(rect.y as real + dy));
    }

    method MoveLeft(vel: int)
      modifies this
      ensures State() == AfterMoveLeft(old(State()), vel)
    {
      xVel := -vel;
      if direction != Left {
        direction := Left;
        animationCount := 0;
      }
    }

    method MoveRight(vel: int)
      modifies this
      ensures State() == AfterMoveRight(old(State()), vel)
    {
      xVel := vel;
      if direction != Right {
        direction := Right;
        animationCount := 0;
      }
    }

    /**
     * One frame of the player's own update: gravity, movement by the current
     * velocity, one more falling frame, then a new sprite.
     */
    method Loop(fps: int)
      requires SheetsComplete(sprites)
      requires fps > 0
      modifies this
      ensures State() == AfterLoop(sprites, old(State()), fps)
    {
      yVel := yVel + MinReal(1.0, (fallCount as real / fps as real) * Gravity as real);
      Move(xVel, yVel);
      fallCount := fallCount + 1;
      UpdateSprite();
    }

    method Landed()
      modifies this
      ensures State() == AfterLanded(old(State()))
      ensures Valid() <==> SheetsComplete(sprites)
    {
      fallCount := 0;
      yVel := 0.0;
      jumpCount := 0;
    }

    method HitHead()
      modifies this
      ensures State() == AfterHitHead(old(State()))
    {
      yVel := yVel * -1.0;
    }

    method UpdateSprite()
      requires SheetsComplete(sprites)
      modifies this
      ensures State() == AfterUpdateSprite(sprites, old(State()))
    {
      var clip := ChooseClip(xVel, yVel, jumpCount);
      var frames := sprites[SpriteKey(clip, direction)];
      var index := FrameIndex(animationCount, |frames|);
      sprite := Some(frames[index]);
      animationCount := animationCount + 1;
      Update();
    }

    /** The rectangle takes the current frame's size at the same top-left corner. */
    method Update()
      requires sprite.Some?
      modifies this
      ensures State() == old(State()).(rect := Rect(old(rect).x, old(rect).y,
                                                   old(sprite).value.width, old(sprite).value.height))
    {
      rect := Rect(rect.x, rect.y, sprite.value.width, sprite.value.height);
    }
  }
}
