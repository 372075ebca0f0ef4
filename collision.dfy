// Vertical collision resolution against the terrain blocks, and the
// per-frame translation of the held movement keys into the player's velocity.
module Collision {
  import opened Config
  import opened Geometry
  import opened PlayerModel

  /**
   * What the collision pass has done after some of the blocks: where the
   * player's rectangle is, whether landed() ran, and whether the ascending
   * branch raised its AttributeError (it calls an attribute the player lacks).
   */
  datatype Sweep = Sweep(rect: Rect, landed: bool, raised: bool)

  /** How handle_vertical_collision ends: it returns a list, or raises. */
  datatype Outcome = Returned(objects: seq<Block>) | AttributeError

  /** One block of the pass. `collide` is the pixel-mask overlap test. */
  function SweepStep(s: Sweep, obj: Block, dy: real, collide: (Rect, Rect) -> bool): Sweep
  {
    if !collide(s.rect, obj.rect) then s
    else if dy > 0.0 then s.(rect := s.rect.WithBottom(obj.rect.Top()), landed := true)
    else if dy < 0.0 then s.(rect := s.rect.WithTop(obj.rect.Bottom()), raised := true)
    else s
  }

  /** The pass over `objects` in order, stopping at the first raise. */
  function SweepBlocks(rect: Rect, objects: seq<Block>, dy: real, collide: (Rect, Rect) -> bool): Sweep
    decreases |objects|
  {
    if objects == [] then Sweep(rect, false, false)
    else
      var s := SweepBlocks(rect, objects[..|objects| - 1], dy, collide);
      if s.raised then s else SweepStep(s, objects[|objects| - 1], dy, collide)
  }

  /** Once the pass has raised, the blocks after that one are never looked at. */
  lemma {:induction false} SweepStopsAtRaise(rect: Rect, objects: seq<Block>, k: nat, dy: real,
                                             collide: (Rect, Rect) -> bool)
    requires k <= |objects|
    requires SweepBlocks(rect, objects[..k], dy, collide).raised
    ensures SweepBlocks(rect, objects, dy, collide) == SweepBlocks(rect, objects[..k], dy, collide)
    decreases |objects| - k
  {
    if k < |objects| {
      var n := |objects| - 1;
      assert objects[..n][..k] == objects[..k];
      SweepStopsAtRaise(rect, objects[..n], k, dy, collide);
    } else {
      assert objects[..k] == objects;
    }
  }

  /** Standing still vertically, the pass never moves the player, lands or raises. */
  lemma {:induction false} SweepStill(rect: Rect, objects: seq<Block>, collide: (Rect, Rect) -> bool)
    ensures SweepBlocks(rect, objects, 0.0, collide) == Sweep(rect, false, false)
  {
    if objects != [] {
      SweepStill(rect, objects[..|objects| - 1], collide);
    }
  }

  /**
   * Falling, the pass never raises and only moves the player vertically.
   * After a landing the player stands on the last block that collided: its
   * bottom edge is that block's top edge, and no later block collided. Without
   * a landing the rectangle is where it was.
   */
  lemma SweepFalling(rect: Rect, objects: seq<Block>, dy: real, collide: (Rect, Rect) -> bool)
    requires dy > 0.0
    ensures var s := SweepBlocks(rect, objects, dy, collide);
            !s.raised &&
            s.rect.x == rect.x && s.rect.width == rect.width && s.rect.height == rect.height &&
            (s.landed ==> exists i :: 0 <= i < |objects| && HitsAt(rect, objects, i, dy, collide) &&
                                      s.rect.Bottom() == objects[i].rect.Top() &&
                                      forall j :: i < j < |objects| ==> !HitsAt(rect, objects, j, dy, collide)) &&
            (!s.landed ==> s.rect == rect)
  {
    SweepFallingKeepsColumn(rect, objects, dy, collide);
    SweepFallingStandsOnLastHit(rect, objects, dy, collide);
  }

  lemma {:induction false} SweepFallingKeepsColumn(rect: Rect, objects: seq<Block>, dy: real,
                                                   collide: (Rect, Rect) -> bool)
    requires dy > 0.0
    ensures var s := SweepBlocks(rect, objects, dy, collide);
            !s.raised &&
            s.rect.x == rect.x && s.rect.width == rect.width && s.rect.height == rect.height &&
            (!s.landed ==> s.rect == rect)
  {
    if objects != [] {
      SweepFallingKeepsColumn(rect, objects[..|objects| - 1], dy, collide);
    }
  }

  /** Block i collided, and no block after it did. */
  predicate LastHit(rect: Rect, objects: seq<Block>, i: int, dy: real, collide: (Rect, Rect) -> bool)
  {
    0 <= i < |objects| && HitsAt(rect, objects, i, dy, collide) &&
    forall j :: i < j < |objects| ==> !HitsAt(rect, objects, j, dy, collide)
  }

  lemma {:induction false} SweepFallingStandsOnLastHit(rect: Rect, objects: seq<Block>, dy: real,
                                                       collide: (Rect, Rect) -> bool)
    requires dy > 0.0
    ensures var s := SweepBlocks(rect, objects, dy, collide);
            s.landed ==> exists i :: LastHit(rect, objects, i, dy, collide) && s.rect.Bottom() == objects[i].rect.Top()
  {
    if objects != [] {
      var n := |objects| - 1;
      var init := objects[..n];
      SweepFallingStandsOnLastHit(rect, init, dy, collide);
      SweepFallingKeepsColumn(rect, init, dy, collide);
      HitsAtPrefix(rect, objects, n, dy, collide);
      var before := SweepBlocks(rect, init, dy, collide);
      var after := SweepBlocks(rect, objects, dy, collide);
      assert after == SweepStep(before, objects[n], dy, collide);
      if collide(before.rect, objects[n].rect) {
        assert LastHit(rect, objects, n, dy, collide);
      } else if before.landed {
        var i :| LastHit(rect, init, i, dy, collide) && before.rect.Bottom() == init[i].rect.Top();
        assert objects[i] == init[i];
        assert LastHit(rect, objects, i, dy, collide);
      }
    }
  }

  /** Over the first n blocks, the pass sees the same collisions whatever follows them. */
  lemma HitsAtPrefix(rect: Rect, objects: seq<Block>, n: nat, dy: real, collide: (Rect, Rect) -> bool)
    requires n < |objects|
    ensures HitsAt(rect, objects, n, dy, collide) ==
              collide(SweepBlocks(rect, objects[..n], dy, collide).rect, objects[n].rect)
    ensures forall i :: 0 <= i < n ==> HitsAt(rect, objects, i, dy, collide) == HitsAt(rect, objects[..n], i, dy, collide)
  {
    forall i | 0 <= i < n
      ensures HitsAt(rect, objects, i, dy, collide) == HitsAt(rect, objects[..n], i, dy, collide)
    {
      assert objects[..n][..i] == objects[..i];
    }
  }

  /** Whether block i collides with the player's rectangle as the pass has left it before block i. */
  predicate HitsAt(rect: Rect, objects: seq<Block>, i: int, dy: real, collide: (Rect, Rect) -> bool)
    requires 0 <= i < |objects|
  {
    collide(SweepBlocks(rect, objects[..i], dy, collide).rect, objects[i].rect)
  }

  /**
   * Falling, the pass lands exactly when some block collides with the
   * player's rectangle as it is when that block is tested.
   */
  lemma {:induction false} SweepFallingLands(rect: Rect, objects: seq<Block>, dy: real,
                                             collide: (Rect, Rect) -> bool)
    requires dy > 0.0
    ensures SweepBlocks(rect, objects, dy, collide).landed <==>
              exists i :: 0 <= i < |objects| && HitsAt(rect, objects, i, dy, collide)
  {
    if objects != [] {
      var n := |objects| - 1;
      var init := objects[..n];
      SweepFallingLands(rect, init, dy, collide);
      SweepFallingKeepsColumn(rect, init, dy, collide);
      HitsAtPrefix(rect, objects, n, dy, collide);
      var before := SweepBlocks(rect, init, dy, collide);
      var landed := SweepBlocks(rect, objects, dy, collide).landed;
      assert landed == (before.landed || collide(before.rect, objects[n].rect));
      if landed && !collide(before.rect, objects[n].rect) {
        var i :| 0 <= i < n && HitsAt(rect, init, i, dy, collide);
        assert HitsAt(rect, objects, i, dy, collide);
      }
    }
  }

  /**
   * Rising, the pass never lands. It raises exactly when some block collides
   * with the player's rectangle, which is not moved before that; the first such
   * block is where it stops, with the player's top edge at that block's bottom.
   */
  lemma {:induction false} SweepRising(rect: Rect, objects: seq<Block>, dy: real, collide: (Rect, Rect) -> bool)
    requires dy < 0.0
    ensures var s := SweepBlocks(rect, objects, dy, collide);
            !s.landed &&
            (s.raised <==> exists i :: 0 <= i < |objects| && collide(rect, objects[i].rect)) &&
            (!s.raised ==> s.rect == rect) &&
            (s.raised ==> exists i :: 0 <= i < |objects| && collide(rect, objects[i].rect) &&
                           (forall j :: 0 <= j < i ==> !collide(rect, objects[j].rect)) &&
                           s.rect == rect.WithTop(objects[i].rect.Bottom()))
  {
    if objects != [] {
      var n := |objects| - 1;
      var init := objects[..n];
      SweepRising(rect, init, dy, collide);
      assert forall i :: 0 <= i < n ==> objects[i] == init[i];
    }
  }

  /**
   * handle_vertical_collision: every block is tested against the player's
   * current rectangle; a block hit while falling puts the player on it and
   * lands them, a block hit while rising puts the player under it and then
   * raises. The list returned holds every block, whether it collided or not.
   */
  method HandleVerticalCollision(player: Player, objects: seq<Block>, dy: real, collide: (Rect, Rect) -> bool)
    returns (outcome: Outcome)
    modifies player
    ensures var s := SweepBlocks(old(player.rect), objects, dy, collide);
            outcome == (if s.raised then AttributeError else Returned(objects)) &&
            player.State() == (if s.landed then AfterLanded(old(player.State())) else old(player.State()))
                                .(rect := s.rect)
  {
    var collided := [];
    var i := 0;
    while i < |objects|
      invariant 0 <= i <= |objects|
      invariant collided == objects[..i]
      invariant var s := SweepBlocks(old(player.rect), objects[..i], dy, collide);
                !s.raised &&
                player.State() == (if s.landed then AfterLanded(old(player.State())) else old(player.State()))
                                    .(rect := s.rect)
    {
      var obj := objects[i];
      assert objects[..i + 1][..i] == objects[..i];
      if collide(player.rect, obj.rect) {
        if dy > 0.0 {
          player.rect := player.rect.WithBottom(obj.rect.Top());
          player.Landed();
        }
        if dy < 0.0 {
          player.rect := player.rect.WithTop(obj.rect.Bottom());
          SweepStopsAtRaise(old(player.rect), objects, i + 1, dy, collide);
          return AttributeError;
        }
      }
      collided := collided + [obj];
      i := i + 1;
    }
    assert objects[..i] == objects;
    return Returned(collided);
  }

  /** The horizontal velocity the movement keys leave: "D" wins over "A". */
  function HeldVelocity(keyA: bool, keyD: bool): (r: int)
    ensures r == -PlayerVel || r == 0 || r == PlayerVel
    ensures r < 0 <==> keyA && !keyD
    ensures r > 0 <==> keyD
  {
    if keyD then PlayerVel else if keyA then -PlayerVel else 0
  }

  /** The player's fields once handle_move has read the keys. */
  function AfterKeys(s: Snapshot, keyA: bool, keyD: bool): Snapshot
  {
    var reset := s.(xVel := 0);
    var left := if keyA then AfterMoveLeft(reset, PlayerVel) else reset;
    if keyD then AfterMoveRight(left, PlayerVel) else left
  }

  /**
   * Reading the keys sets the horizontal velocity to HeldVelocity and faces
   * the player the way of the last key applied; with both keys held the
   * player ends facing right at +PlayerVel with the animation restarted.
   * Nothing but velocity, direction and the animation counter changes.
   */
  lemma KeysEffect(s: Snapshot, keyA: bool, keyD: bool)
    ensures AfterKeys(s, keyA, keyD).xVel == HeldVelocity(keyA, keyD)
    ensures AfterKeys(s, keyA, keyD).direction ==
              if keyD then Right else if keyA then Left else s.direction
    ensures keyA && keyD ==> AfterKeys(s, keyA, keyD).animationCount == 0
    ensures !keyA && !keyD ==> AfterKeys(s, keyA, keyD) == s.(xVel := 0)
    ensures AfterKeys(s, keyA, keyD).(xVel := s.xVel, direction := s.direction,
                                      animationCount := s.animationCount) == s
  {
  }

  /**
   * handle_move: reset the horizontal velocity, apply "A" then "D", then
   * resolve vertical collisions with the vertical velocity as dy.
   */
  method HandleMove(player: Player, objects: seq<Block>, keyA: bool, keyD: bool,
                    collide: (Rect, Rect) -> bool)
    returns (outcome: Outcome)
    modifies player
    ensures var keyed := AfterKeys(old(player.State()), keyA, keyD);
            var s := SweepBlocks(keyed.rect, objects, keyed.yVel, collide);
            outcome == (if s.raised then AttributeError else Returned(objects)) &&
            player.State() == (if s.landed then AfterLanded(keyed) else keyed).(rect := s.rect)
  {
    player.xVel := 0;
    if keyA {
      player.MoveLeft(PlayerVel);
    }
    if keyD {
      player.MoveRight(PlayerVel);
    }
    outcome := HandleVerticalCollision(player, objects, player.yVel, collide);
  }
}
