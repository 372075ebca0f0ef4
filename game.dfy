// One iteration of main's game loop: the event queue (quit and the jump key),
// the player's update, the movement keys and collisions, and the camera.
// Also the level main builds before the loop.
module Game {
  import opened Config
  import opened Geometry
  import opened PlayerModel
  import opened Collision
  import opened Arith

  /** The camera: the offset follows the player's velocity only near a window edge in the direction of travel. */
  function Scroll(offset: int, rect: Rect, xVel: int): int
  {
    if (rect.Right() - offset >= Width - ScrollAreaWidth && xVel > 0) ||
       (rect.Left() - offset <= ScrollAreaWidth && xVel < 0)
    then offset + xVel
    else offset
  }

  /**
   * The offset either stays or moves by exactly the velocity; it moves exactly
   * when the player heads right with its right edge within ScrollAreaWidth of
   * the window's right side, or heads left with its left edge within
   * ScrollAreaWidth of the window's left side.
   */
  lemma ScrollStep(offset: int, rect: Rect, xVel: int)
    ensures Scroll(offset, rect, xVel) == offset || Scroll(offset, rect, xVel) == offset + xVel
    ensures Scroll(offset, rect, xVel) != offset <==>
              (xVel > 0 && rect.Right() - offset >= Width - ScrollAreaWidth) ||
              (xVel < 0 && rect.Left() - offset <= ScrollAreaWidth)
  {
  }

  /** Strictly inside the band between the scroll areas, or standing still, the camera does not move. */
  lemma ScrollUnchangedInsideBand(offset: int, rect: Rect, xVel: int)
    requires xVel == 0 ||
             (ScrollAreaWidth < rect.Left() - offset && rect.Right() - offset < Width - ScrollAreaWidth)
    ensures Scroll(offset, rect, xVel) == offset
  {
  }

  /**
   * When the camera does move, a player that has just moved by xVel keeps its
   * place on screen: its screen position is what it was before the move.
   */
  lemma ScrollKeepsScreenPosition(offset: int, rect: Rect, xVel: int)
    requires Scroll(offset, rect.(x := rect.x + xVel), xVel) != offset
    ensures rect.x + xVel - Scroll(offset, rect.(x := rect.x + xVel), xVel) == rect.x - offset
  {
  }

  /** The keys the game reacts to. */
  datatype Key = Space | OtherKey
  /** The events of the host's queue, as far as the game distinguishes them. */
  datatype Event = Quit | KeyDown(key: Key) | OtherEvent

  /**
   * The player after the event loop: a Space key-down jumps when fewer than
   * two jumps are in progress, and a Quit ends the loop, leaving the
   * events after it unread.
   */
  function Dispatch(s: Snapshot, events: seq<Event>): Snapshot
    decreases |events|
  {
    if events == [] then s
    else match events[0]
      case Quit => s
      case KeyDown(Space) => Dispatch(if s.jumpCount < 2 then AfterJump(s) else s, events[1..])
      case _ => Dispatch(s, events[1..])
  }

  /** How many Space key-downs come before the first Quit. */
  function JumpRequests(events: seq<Event>): nat
  {
    if events == [] then 0
    else match events[0]
      case Quit => 0
      case KeyDown(Space) => 1 + JumpRequests(events[1..])
      case _ => JumpRequests(events[1..])
  }

  function Min(a: int, b: int): int
  {
    if a <= b then a else b
  }

  /**
   * The guard caps jumps at a double jump: from at most two jumps in
   * progress, the event loop adds one jump per request until two are in
   * progress and ignores the requests after that. Only the jump fields change.
   */
  lemma {:induction false} DispatchJumps(s: Snapshot, events: seq<Event>)
    requires s.jumpCount <= 2
    ensures Dispatch(s, events).jumpCount == Min(2, s.jumpCount + JumpRequests(events))
    ensures Dispatch(s, events).rect == s.rect && Dispatch(s, events).xVel == s.xVel
    ensures Dispatch(s, events).direction == s.direction && Dispatch(s, events).sprite == s.sprite
    decreases |events|
  {
    if events != [] {
      match events[0]
      case Quit =>
      case KeyDown(Space) =>
        DispatchJumps(if s.jumpCount < 2 then AfterJump(s) else s, events[1..]);
      case _ =>
        DispatchJumps(s, events[1..]);
    }
  }

  /** The event loop of one frame; it returns false when a Quit was read. */
  method ProcessEvents(player: Player, events: seq<Event>) returns (run: bool)
    requires player.Valid()
    modifies player
    ensures player.Valid()
    ensures run <==> Quit !in events
    ensures player.State() == Dispatch(old(player.State()), events)
  {
    run := true;
    var i := 0;
    while i < |events|
      invariant 0 <= i <= |events|
      invariant player.Valid()
      invariant Quit !in events[..i]
      invariant Dispatch(player.State(), events[i..]) == Dispatch(old(player.State()), events)
    {
      var event := events[i];
      if event == Quit {
        run := false;
        assert Quit in events;
        break;
      }
      if event == KeyDown(Space) && player.jumpCount < 2 {
        player.Jump();
      }
      assert events[..i + 1] == events[..i] + [event];
      i := i + 1;
    }
    assert run ==> events[..i] == events;
  }

  /**
   * One pass of main's loop after the frame-rate wait: events, the player's
   * own update, the movement keys and collisions, then the camera (drawing is
   * left out). A raise in the collision pass ends the frame before the camera
   * moves.
   */
  method GameStep(player: Player, objects: seq<Block>, events: seq<Event>, keyA: bool, keyD: bool,
                  offset: int, collide: (Rect, Rect) -> bool)
    returns (run: bool, newOffset: int, outcome: Outcome)
    requires player.Valid()
    modifies player
    ensures run <==> Quit !in events
    ensures player.Valid()
    ensures player.xVel == HeldVelocity(keyA, keyD)
    ensures outcome == AttributeError || outcome == Returned(objects)
    ensures newOffset == if outcome.Returned? then Scroll(offset, player.rect, player.xVel) else offset
    ensures var looped := AfterLoop(player.sprites, Dispatch(old(player.State()), events), Fps);
            var keyed := AfterKeys(looped, keyA, keyD);
            var sweep := SweepBlocks(keyed.rect, objects, keyed.yVel, collide);
            (outcome == AttributeError <==> sweep.raised) &&
            player.State() == (if sweep.landed then AfterLanded(keyed) else keyed).(rect := sweep.rect)
  {
    run := ProcessEvents(player, events);
    player.Loop(Fps);
    ghost var before := player.State();
    outcome := HandleMove(player, objects, keyA, keyD, collide);
    KeysEffect(before, keyA, keyD);
    if outcome == AttributeError {
      newOffset := offset;
      return;
    }
    newOffset := Scroll(offset, player.rect, player.xVel);
  }

  /** A terrain block of the given size with its top-left corner at (x, y). */
  function NewBlock(x: int, y: int, size: int): Block
  {
    Block(Rect(x, y, size, size))
  }

  /**
   * The level of main: a floor row of blocks for i from -Width // BlockSize up
   * to 2 * Width // BlockSize (exclusive), then one block on the floor at x = 0
   * and one floating block. Python's floor division of the negative bound
   * agrees with Dafny's division here because the divisor is positive.
   */
  function LevelBlocks(): seq<Block>
  {
    var first := -Width / BlockSize;
    var count := Width * 2 / BlockSize - first;
    var floor := seq(count, k => NewBlock((first + k) * BlockSize, Height - BlockSize, BlockSize));
    floor + [NewBlock(0, Height - BlockSize * 2, BlockSize),
             NewBlock(BlockSize * 3, Height - BlockSize * 4, BlockSize)]
  }

  /**
   * The level has 25 floor blocks and two more. The floor sits at the bottom
   * of the window, runs without gaps from x = -864 to x = 1536 (past both
   * edges of the 800-pixel window), the block at x = 0 stands on it, and the
   * last block floats at (288, 216).
   */
  lemma LevelLayout()
    ensures |LevelBlocks()| == 27
    ensures forall k :: 0 <= k < 25 ==> LevelBlocks()[k].rect.Bottom() == Height
    ensures LevelBlocks()[0].rect.Left() == -864 && LevelBlocks()[24].rect.Right() == 1536
    ensures forall k :: 0 <= k < 24 ==> LevelBlocks()[k].rect.Right() == LevelBlocks()[k + 1].rect.Left()
    ensures LevelBlocks()[25].rect.Bottom() == LevelBlocks()[9].rect.Top()
    ensures LevelBlocks()[25].rect.Left() == LevelBlocks()[9].rect.Left()
    ensures LevelBlocks()[26].rect == Rect(288, 216, 96, 96)
  {
    DivModUnique(-Width, BlockSize, -9, 64);
    DivModUnique(Width * 2, BlockSize, 16, 64);
    var blocks := LevelBlocks();
    forall k | 0 <= k < 25
      ensures blocks[k] == NewBlock((k - 9) * BlockSize, Height - BlockSize, BlockSize)
    {
    }
  }

  /** The state main starts the loop in: the player at (100, 100), 50 x 50, and the camera at 0. */
  method NewGame(sprites: map<string, seq<Frame>>) returns (player: Player, objects: seq<Block>, offset: int)
    requires SheetsComplete(sprites)
    ensures fresh(player) && player.Valid() && player.sprites == sprites
    ensures player.State() == Snapshot(Rect(100, 100, 50, 50), 0, 0.0, Left, 0, 0, 0, None)
    ensures objects == LevelBlocks() && offset == 0
  {
    player := new Player(100, 100, 50, 50, sprites);
    objects := LevelBlocks();
    offset := 0;
  }
}
