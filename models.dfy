/** The model objects of one wave: the player's ship, the aliens and the laser
    bolts (invaders/models.py).  Images, sounds and drawing are not modelled;
    game2d's point-in-image test is the closed axis-aligned box `Contains`. */
module Models {
  import opened Consts

  datatype Option<T> = None | Some(value: T)

  datatype Point = Point(x: real, y: real)

  /** An alien is only its centre; its size is ALIEN_WIDTH x ALIEN_HEIGHT. */
  datatype Alien = Alien(x: real, y: real)

  /** game2d's `contains` for an unrotated image of size w x h centred at (cx, cy). */
  predicate Contains(cx: real, cy: real, w: nat, h: nat, p: Point) {
    && cx - w as real / 2.0 <= p.x <= cx + w as real / 2.0
    && cy - h as real / 2.0 <= p.y <= cy + h as real / 2.0
  }

  /** The corners tl, tr, bl, br that scollides/acollides build: the bolt's
      centre offset by the TARGET's half width and half height (floor
      division), with br written exactly as bl. */
  function Corners(w: nat, h: nat, boltX: real, boltY: real): seq<Point> {
    var hw, hh := (w / 2) as real, (h / 2) as real;
    [Point(boltX - hw, boltY + hh), Point(boltX + hw, boltY + hh),
     Point(boltX - hw, boltY - hh), Point(boltX - hw, boltY - hh)]
  }

  /** Some corner of `Corners` lies in the target's box. */
  predicate CornerHit(cx: real, cy: real, w: nat, h: nat, boltX: real, boltY: real) {
    var c := Corners(w, h, boltX, boltY);
    Contains(cx, cy, w, h, c[0]) || Contains(cx, cy, w, h, c[1]) ||
    Contains(cx, cy, w, h, c[2]) || Contains(cx, cy, w, h, c[3])
  }

  /** Reference: the four true corners tl, tr, bl and br of the same box. */
  predicate BoxCornerHit(cx: real, cy: real, w: nat, h: nat, boltX: real, boltY: real) {
    var hw, hh := (w / 2) as real, (h / 2) as real;
    || Contains(cx, cy, w, h, Point(boltX - hw, boltY + hh))
    || Contains(cx, cy, w, h, Point(boltX + hw, boltY + hh))
    || Contains(cx, cy, w, h, Point(boltX - hw, boltY - hh))
    || Contains(cx, cy, w, h, Point(boltX + hw, boltY - hh))
  }

  /** The duplicated corner only loses hits: every hit the source reports is a
      hit of the four-corner test, and the hits it misses are exactly those
      where only the true bottom-right corner is inside, which needs the bolt
      to be strictly left of and above the target's centre. */
  lemma CornerHitMissesOnlyUpperLeft(cx: real, cy: real, w: nat, h: nat, boltX: real, boltY: real)
    ensures CornerHit(cx, cy, w, h, boltX, boltY) ==> BoxCornerHit(cx, cy, w, h, boltX, boltY)
    ensures BoxCornerHit(cx, cy, w, h, boltX, boltY) && !CornerHit(cx, cy, w, h, boltX, boltY) ==>
              boltX < cx && boltY > cy
  {
    var hw, hh := (w / 2) as real, (h / 2) as real;
    assert hw <= w as real / 2.0 && hh <= h as real / 2.0;
  }

  /** A concrete miss: a 2 x 2 target at the origin and a bolt at (-1.5, 1.5). */
  lemma CornerHitMissExample()
    ensures BoxCornerHit(0.0, 0.0, 2, 2, -1.5, 1.5) && !CornerHit(0.0, 0.0, 2, 2, -1.5, 1.5)
  {
    assert Contains(0.0, 0.0, 2, 2, Point(-0.5, 0.5));
  }

  /** Bolt.out at height y: the bolt's bottom is at or above the top of the
      screen, or its top is at or below the bottom. */
  predicate OutAt(cfg: Config, y: real) {
    y - (cfg.boltHeight / 2) as real >= cfg.gameHeight as real ||
    y + (cfg.boltHeight / 2) as real <= 0.0
  }

  /** A laser bolt.  Its x and velocity are fixed when it is fired (the
      source has no setter for the velocity); only y moves.  The sign of the
      velocity is the only record of who fired it. */
  class Bolt {
    const x: real
    var y: real
    const velocity: int

    constructor (x: real, y: real, vb: int)
      ensures this.x == x && this.y == y && velocity == vb
    {
      this.x := x;
      this.y := y;
      velocity := vb;
    }

    /** isPlayerBolt: fired by the ship, i.e. moving up. */
    predicate IsPlayerBolt() {
      velocity > 0
    }

    /** out: the bolt has left the screen. */
    predicate Out(cfg: Config)
      reads this
    {
      OutAt(cfg, y)
    }

    /** move: one step of the bolt's own velocity. */
    method Move()
      modifies this`y
      ensures y == old(y) + velocity as real
    {
      y := y + velocity as real;
    }
  }

  /** Where one pass of _shipbolt leaves a bolt that stood at height y0 with
      velocity v: a bolt that is out stays put (it is deleted), any other
      moves one step. */
  function Advanced(cfg: Config, y0: real, v: int): real {
    if OutAt(cfg, y0) then y0 else y0 + v as real
  }

  /** A bolt moving with velocity v != 0 leaves the screen after finitely many
      moves: from any height y it is out after n moves for some n. */
  lemma BoltLeavesScreen(cfg: Config, y: real, v: int) returns (n: nat)
    requires v != 0
    ensures OutAt(cfg, y + (n * v) as real)
  {
    var half := (cfg.boltHeight / 2) as real;
    if v > 0 {
      var bound := cfg.gameHeight as real + half;
      var dist := if y <= bound then bound - y else 0.0;
      n := dist.Floor + 1;
      var k := n * v;
      StepsAtLeast(n, v);
      assert k as real >= n as real > dist;
      assert y + k as real - half >= cfg.gameHeight as real;
    } else {
      var low := y + half;
      n := if low <= 0.0 then 0 else low.Floor + 1;
      var k := n * v;
      StepsAtLeast(n, v);
      assert k as real <= -(n as real);
      assert -(n as real) <= -low;
      assert y + k as real + half <= 0.0;
    }
  }

  /** n steps of a non-zero velocity cover at least n pixels. */
  lemma StepsAtLeast(n: nat, v: int)
    ensures v >= 1 ==> n * v >= n
    ensures v <= -1 ==> n * v + n <= 0
  {
  }

  /** Alien.acollides: a box hit by a bolt the player fired. */
  predicate AlienCollides(cfg: Config, a: Alien, b: Bolt)
    reads b
  {
    CornerHit(a.x, a.y, cfg.alienWidth, cfg.alienHeight, b.x, b.y) && b.velocity > 0
  }

  /** Python's int() of a real: truncation toward zero. */
  function Trunc(r: real): int {
    if r >= 0.0 then r.Floor else -((-r).Floor)
  }

  /** The sprite frame animate() assigns after `time` seconds of explosion:
      int(time/DEATH_SPEED*count)+1. */
  function FrameIndex(cfg: Config, time: real): int
    requires cfg.Valid()
  {
    Trunc(time / cfg.deathSpeed * cfg.shipFrames as real) + 1
  }

  /** The explosion never goes back a frame: the frame index is
      non-decreasing in the accumulated time. */
  lemma FrameIndexMonotone(cfg: Config, t1: real, t2: real)
    requires cfg.Valid() && 0.0 <= t1 <= t2
    ensures 1 <= FrameIndex(cfg, t1) <= FrameIndex(cfg, t2)
  {
    var d, c := cfg.deathSpeed, cfg.shipFrames as real;
    var a1, a2 := t1 / d, t2 / d;
    assert a1 * d == t1 && a2 * d == t2;
    ScaleKeepsOrder(a2, a1, d);
    ScaleKeepsOrder(a2, a1, c);
    ScaleBack(t1, d, c);
    assert 0.0 <= a1 * c <= a2 * c;
  }

  /** The animation has reached its last frame exactly when the accumulated
      time is at least (count-1)/count of DEATH_SPEED. */
  lemma FinishedIff(cfg: Config, t: real)
    requires cfg.Valid() && t >= 0.0
    ensures FrameIndex(cfg, t) >= cfg.shipFrames <==>
              t * cfg.shipFrames as real >= cfg.deathSpeed * (cfg.shipFrames - 1) as real
  {
    var c := cfg.shipFrames as real;
    var a := t / cfg.deathSpeed * c;
    ScaleBack(t, cfg.deathSpeed, c);
    assert a >= 0.0;
    assert FrameIndex(cfg, t) == a.Floor + 1;
    assert a.Floor + 1 >= cfg.shipFrames <==> a >= (cfg.shipFrames - 1) as real;
    ScaleKeepsOrder(a, (cfg.shipFrames - 1) as real, cfg.deathSpeed);
  }

  /** Dividing by d and multiplying back gives the product again. */
  lemma ScaleBack(t: real, d: real, c: real)
    requires d > 0.0 && t >= 0.0 && c >= 0.0
    ensures t / d * c * d == t * c
    ensures t / d * c >= 0.0
  {
    assert t / d * d == t;
  }

  /** Multiplying by a positive factor keeps the order. */
  lemma ScaleKeepsOrder(a: real, b: real, d: real)
    requires d > 0.0
    ensures a >= b <==> a * d >= b * d
  {
    if a >= b {
      assert a * d - b * d == (a - b) * d;
    } else {
      assert b * d - a * d == (b - a) * d;
    }
  }

  /** Once DEATH_SPEED seconds have accumulated the explosion is over. */
  lemma FinishedAfterDeathSpeed(cfg: Config, t: real)
    requires cfg.Valid() && t >= cfg.deathSpeed
    ensures FrameIndex(cfg, t) >= cfg.shipFrames
  {
    FinishedIff(cfg, t);
    var c := cfg.shipFrames as real;
    assert t * c >= cfg.deathSpeed * c;
    assert cfg.deathSpeed * c >= cfg.deathSpeed * (c - 1.0);
  }

  /** Where Ship.move puts the ship: right adds SHIP_MOVEMENT and clamps at
      GAME_WIDTH-SHIP_WIDTH//2; left subtracts it and clamps at SHIP_WIDTH/2. */
  function MovedX(cfg: Config, x: real, right: bool): (nx: real)
    ensures right ==> nx <= cfg.ShipMaxX() && (nx == cfg.ShipMaxX() || nx == x + cfg.shipMovement as real)
    ensures !right ==> nx >= cfg.ShipMinX() && (nx == cfg.ShipMinX() || nx == x - cfg.shipMovement as real)
  {
    if right then
      var nx := x + cfg.shipMovement as real;
      if cfg.ShipMaxX() < nx then cfg.ShipMaxX() else nx
    else
      var nx := x - cfg.shipMovement as real;
      if cfg.ShipMinX() > nx then cfg.ShipMinX() else nx
  }

  predicate InBounds(cfg: Config, x: real) {
    cfg.ShipMinX() <= x <= cfg.ShipMaxX()
  }

  /** A ship that starts inside the clamp range stays inside it; moving right
      never decreases x, moving left never increases it, and a move changes x
      by at most SHIP_MOVEMENT. */
  lemma MoveStaysInBounds(cfg: Config, x: real, right: bool)
    requires cfg.Valid() && InBounds(cfg, x)
    ensures InBounds(cfg, MovedX(cfg, x, right))
    ensures right ==> x <= MovedX(cfg, x, right) <= x + cfg.shipMovement as real
    ensures !right ==> x - cfg.shipMovement as real <= MovedX(cfg, x, right) <= x
  {
    assert cfg.ShipMinX() <= cfg.ShipMaxX() by {
      assert cfg.shipWidth / 2 <= cfg.gameWidth / 2;
      assert (cfg.gameWidth / 2) as real <= (cfg.gameWidth - cfg.shipWidth / 2) as real;
    }
  }

  /** The spawn point GAME_WIDTH//2 lies in the clamp range. */
  lemma SpawnInBounds(cfg: Config)
    requires cfg.Valid()
    ensures InBounds(cfg, (cfg.gameWidth / 2) as real)
  {
    assert cfg.shipWidth / 2 <= cfg.gameWidth / 2;
  }

  /** The player's ship.  Its y never changes; `frame` is the sprite frame
      that the explosion animation advances. */
  class Ship {
    var x: real
    const y: real
    var frame: int

    constructor (x: real, y: real)
      ensures this.x == x && this.y == y && frame == 0
    {
      this.x := x;
      this.y := y;
      frame := 0;
    }

    /** move(key): key True moves right, False moves left, clamped. */
    method Move(cfg: Config, right: bool)
      modifies this`x
      ensures x == MovedX(cfg, old(x), right)
    {
      if right {
        x := x + cfg.shipMovement as real;
        x := if cfg.ShipMaxX() < x then cfg.ShipMaxX() else x;
      } else {
        x := x - cfg.shipMovement as real;
        x := if cfg.ShipMinX() > x then cfg.ShipMinX() else x;
      }
    }

    /** scollides: a box hit by a bolt an alien fired. */
    predicate Collides(cfg: Config, b: Bolt)
      reads this, b
    {
      CornerHit(x, y, cfg.shipWidth, cfg.shipHeight, b.x, b.y) && b.velocity < 0
    }

    /** One resumption of the animate() coroutine: add dt to the elapsed time,
        show frame int(time/DEATH_SPEED*count)+1, and report whether the
        coroutine has ended.  It ends in the same call in which the index
        reaches the last frame; an index past the last frame ends it too (the
        wave catches whatever the coroutine raises), so the explosion is over
        exactly when the index is at least `count`. */
    method Animate(cfg: Config, elapsed: real, dt: real) returns (now: real, finished: bool)
      requires cfg.Valid()
      modifies this`frame
      ensures now == elapsed + dt
      ensures frame == FrameIndex(cfg, now)
      ensures finished <==> frame >= cfg.shipFrames
    {
      now := elapsed + dt;
      var steps := now / cfg.deathSpeed;
      var amount := steps * cfg.shipFrames as real;
      frame := Trunc(amount) + 1;
      finished := frame >= cfg.shipFrames;
    }
  }

  /** The velocity sign keeps the two collision tests apart: the ship is only
      hit by alien bolts, aliens only by player bolts, so no bolt hits both. */
  lemma NoBoltHitsBoth(cfg: Config, s: Ship, a: Alien, b: Bolt)
    ensures s.Collides(cfg, b) ==> !b.IsPlayerBolt()
    ensures AlienCollides(cfg, a, b) ==> b.IsPlayerBolt()
    ensures !(s.Collides(cfg, b) && AlienCollides(cfg, a, b))
  {
  }
}
