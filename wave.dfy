/** The `Wave` subcontroller of invaders/wave.py: one wave of the game, with
    the ship, the alien grid, the bolts in flight, the march timer, the firing
    counters, the score and lives, and the terminal flags.  `Update` is one
    animation frame. */
module Waves {
  import opened Consts
  import opened Models
  import opened Formation
  import opened Volley

  /** The keys `update` looks at. */
  datatype Input = Input(right: bool, left: bool, up: bool)

  /** The ship's explosion coroutine (`_animator`): not running, or running
      for `target` with `elapsed` seconds accumulated. */
  datatype Animator = Idle | Exploding(target: Ship, elapsed: real)

  /** The ship an animator advances, if any. */
  function Targets(a: Animator): set<Ship> {
    if a.Exploding? then {a.target} else {}
  }

  /** Where a new bolt of the player starts: SHIP_HEIGHT+SHIP_BOTTOM. */
  function ShipBoltY(cfg: Config): real {
    (cfg.shipHeight + cfg.shipBottom) as real
  }

  /** b is the bolt _alienbolt fires from column c: from the frontmost alien
      of the column, ALIEN_HEIGHT//2 below its centre, moving down at
      BOLT_SPEED. */
  ghost predicate FiredFrom(cfg: Config, g: Grid, c: int, b: Bolt)
    requires ColumnLive(g, c)
    reads b
  {
    var a := g[FrontRow(g, c)][c].value;
    b.x == a.x && b.y == a.y - (cfg.alienHeight / 2) as real && b.velocity == -(cfg.boltSpeed as int)
  }

  class Wave {
    const cfg: Config
    var aliens: Grid
    var ship: Ship?
    var time: real
    var direction: int
    var bolts: seq<Bolt>
    var blank: int
    var step: int
    var animator: Animator
    var dead: bool
    var lives: int
    var detect: bool
    var win: bool
    var score: int
    /** How far the formation has marched right and down since it was built. */
    ghost var marchX: real
    ghost var marchY: real

    /** The wave's invariant between frames. */
    ghost predicate Valid()
      reads this, ship
    {
      && Steady()
      && 0 <= step < blank <= cfg.boltRate
      && (win <==> Cleared(aliens))
      && 0 <= lives <= cfg.shipLives
      && (!dead ==> lives >= 1)
      && (win ==> dead)
    }

    /** The part of the invariant that also holds between the passes of one
        frame (the firing counter may reach its threshold and the grid may
        be cleared before the flags catch up). */
    ghost predicate Steady()
      reads this, ship
    {
      && cfg.Valid()
      && InFormation(cfg, aliens, marchX, marchY)
      && (direction == 1 || direction == -1)
      && time >= 0.0
      && Distinct(bolts)
      && PlayerCount(bolts) <= 1
      && (ship != null ==> InBounds(cfg, ship.x))
      && (animator.Exploding? ==> animator.elapsed >= 0.0)
      && score >= 0
    }

    /** __init__: a full grid, a ship at the bottom centre, no bolts, a
        random first firing threshold in [1, BOLT_RATE]. */
    constructor (cfg: Config)
      requires cfg.Valid()
      ensures Valid()
      ensures Full(aliens) && InFormation(cfg, aliens, 0.0, 0.0)
      ensures ship != null && fresh(ship)
      ensures ship.x == (cfg.gameWidth / 2) as real && ship.y == (cfg.shipBottom + cfg.shipHeight / 2) as real
      ensures time == 0.0 && direction == 1 && bolts == [] && step == 0 && 1 <= blank <= cfg.boltRate
      ensures animator == Idle && !dead && lives == cfg.shipLives && !detect && !win && score == 0
    {
      this.cfg := cfg;
      var g := AddAliens(cfg);
      aliens := g;
      ship := new Ship((cfg.gameWidth / 2) as real, (cfg.shipBottom + cfg.shipHeight / 2) as real);
      time := 0.0;
      direction := 1;
      bolts := [];
      var b :| 1 <= b <= cfg.boltRate;
      blank := b;
      step := 0;
      animator := Idle;
      dead := false;
      lives := cfg.shipLives;
      detect := false;
      win := false;
      score := 0;
      marchX, marchY := 0.0, 0.0;
      SpawnInBounds(cfg);
      assert Live(g, 0, 0);
    }

    /** _addalien: ALIEN_ROWS rows of ALIENS_IN_ROW live aliens, each at the
        x of its column and the y of its row. */
    static method AddAliens(cfg: Config) returns (g: Grid)
      requires cfg.Valid()
      ensures Shaped(cfg, g) && Full(g) && InFormation(cfg, g, 0.0, 0.0)
    {
      var rlist: Grid := [];
      var r := 0;
      while r < cfg.alienRows
        invariant 0 <= r <= cfg.alienRows && |rlist| == r
        invariant forall i :: 0 <= i < r ==> |rlist[i]| == cfg.aliensInRow
        invariant forall i, j :: 0 <= i < r && 0 <= j < cfg.aliensInRow ==>
                    rlist[i][j] == Some(Alien(ColumnX(cfg, j), RowY(cfg, i)))
      {
        var alist: seq<Option<Alien>> := [];
        var a := 0;
        while a < cfg.aliensInRow
          invariant 0 <= a <= cfg.aliensInRow && |alist| == a
          invariant forall j :: 0 <= j < a ==> alist[j] == Some(Alien(ColumnX(cfg, j), RowY(cfg, r)))
        {
          var ax := ((a + 1) * (cfg.alienHSep + cfg.alienWidth)) as real;
          var ay := (cfg.gameHeight - cfg.alienCeiling - (cfg.alienRows - r - 1) * (cfg.alienVSep + cfg.alienHeight)) as real;
          alist := alist + [Some(Alien(ax, ay))];
          a := a + 1;
        }
        rlist := rlist + [alist];
        r := r + 1;
      }
      g := rlist;
      forall i, j | 0 <= i < |g| && 0 <= j < |g[i]| ensures Live(g, i, j) {
        assert |g[i]| == cfg.aliensInRow;
        assert g[i][j] == Some(Alien(ColumnX(cfg, j), RowY(cfg, i)));
      }
    }

    // -------------------------------------------------------------------
    // Frame

    /** update: move the ship (only while it exists and is not exploding),
        advance the march timer, then run the bolt, collision, animation and
        defense-line passes in the source's order.  The game only calls it
        while the player is alive, which also means the wave is not won: the
        march and the alien fire both need a live alien.  The aliens march
        only when the timer passes ALIEN_SPEED; otherwise the hit pass only
        empties slots. */
    method Update(dt: real, input: Input)
      requires Valid() && !dead && dt >= 0.0
      modifies this, ship, bolts, Targets(animator)
      ensures Valid()
      ensures score >= old(score)
      ensures LiveCount(aliens) <= old(LiveCount(aliens))
      ensures time == if old(time) + dt > cfg.alienSpeed then 0.0 else old(time) + dt
      ensures old(time) + dt <= cfg.alienSpeed ==> EmptiesOnly(old(aliens), aliens) && direction == old(direction)
      ensures old(time) + dt > cfg.alienSpeed && old(MarchesSideways(cfg, aliens, direction)) ==>
                EmptiesOnly(Shift(old(aliens), (old(direction) * cfg.alienHWalk) as real, 0.0), aliens)
                && direction == old(direction)
      ensures old(time) + dt > cfg.alienSpeed && !old(MarchesSideways(cfg, aliens, direction)) ==>
                EmptiesOnly(Shift(old(aliens), 0.0, -(cfg.alienVWalk as real)), aliens)
                && direction == -old(direction)
      ensures Breach(cfg, aliens) ==> dead && !win && lives == 0
      ensures !Breach(cfg, aliens) ==> lives == old(lives) || lives == old(lives) - 1
    {
      Steer(input);
      Advance(dt, input.up);
    }

    /** update after the ship's move: the march timer, then the passes. */
    method Advance(dt: real, up: bool)
      requires Valid() && !dead && dt >= 0.0
      modifies this, ship, bolts, Targets(animator)
      ensures Valid()
      ensures score >= old(score)
      ensures LiveCount(aliens) <= old(LiveCount(aliens))
      ensures time == if old(time) + dt > cfg.alienSpeed then 0.0 else old(time) + dt
      ensures old(time) + dt <= cfg.alienSpeed ==> EmptiesOnly(old(aliens), aliens) && direction == old(direction)
      ensures old(time) + dt > cfg.alienSpeed && old(MarchesSideways(cfg, aliens, direction)) ==>
                EmptiesOnly(Shift(old(aliens), (old(direction) * cfg.alienHWalk) as real, 0.0), aliens)
                && direction == old(direction)
      ensures old(time) + dt > cfg.alienSpeed && !old(MarchesSideways(cfg, aliens, direction)) ==>
                EmptiesOnly(Shift(old(aliens), 0.0, -(cfg.alienVWalk as real)), aliens)
                && direction == -old(direction)
      ensures Breach(cfg, aliens) ==> dead && !win && lives == 0
      ensures !Breach(cfg, aliens) ==> lives == old(lives) || lives == old(lives) - 1
    {
      March(dt);
      Resolve(up, dt);
    }

    /** update's passes after the march: firing, collisions, the ship's
        explosion and the defense line. */
    method Resolve(up: bool, dt: real)
      requires Steady() && !Cleared(aliens) && 0 <= step <= blank <= cfg.boltRate && !win && dt >= 0.0
      requires !dead && 1 <= lives <= cfg.shipLives
      modifies this`bolts, bolts, this`step, this`blank, this`aliens, this`score, this`detect
      modifies this`animator, this`ship, this`dead, this`lives, this`win, Targets(animator)`frame
      ensures Valid()
      ensures score >= old(score) && LiveCount(aliens) <= old(LiveCount(aliens))
      ensures EmptiesOnly(old(aliens), aliens)
      ensures Breach(cfg, aliens) ==> dead && !win && lives == 0
      ensures !Breach(cfg, aliens) ==> lives == old(lives) || lives == old(lives) - 1
    {
      Fire(up);
      Collide();
      Settle(dt);
    }

    /** update's last passes: the ship's explosion, then the defense line
        and the cleared grid. */
    method Settle(dt: real)
      requires Steady() && 0 <= step < blank <= cfg.boltRate && !win && dt >= 0.0
      requires ship == null ==> !detect
      requires !dead && 1 <= lives <= cfg.shipLives
      modifies this`animator, this`ship, this`bolts, this`dead, this`lives, this`win, Targets(animator)`frame
      ensures Valid()
      ensures Breach(cfg, aliens) ==> dead && !win && lives == 0
      ensures !Breach(cfg, aliens) ==> lives == old(lives) || lives == old(lives) - 1
    {
      Animation(dt);
      assert Steady();
      CheckLine();
    }

    /** update's first step: the arrow keys move a ship that exists and is
        not exploding. */
    method Steer(input: Input)
      requires Valid()
      modifies ship
      ensures Valid()
      ensures ship != null && animator.Idle? ==>
                var x1 := if input.right then MovedX(cfg, old(ship.x), true) else old(ship.x);
                ship.x == if input.left then MovedX(cfg, x1, false) else x1
      ensures ship != null && animator.Exploding? ==> ship.x == old(ship.x)
    {
      if ship != null && animator.Idle? {
        if input.right {
          MoveStaysInBounds(cfg, ship.x, true);
          ship.Move(cfg, true);
        }
        if input.left {
          MoveStaysInBounds(cfg, ship.x, false);
          ship.Move(cfg, false);
        }
      }
    }

    /** update's march timer: time accumulates dt; once it passes
        ALIEN_SPEED the aliens march, the timer restarts and the firing
        counter advances. */
    method March(dt: real)
      requires Valid() && !win && dt >= 0.0
      modifies this`time, this`aliens, this`direction, this`marchX, this`marchY, this`step
      ensures Steady() && !Cleared(aliens) && 0 <= step <= blank <= cfg.boltRate
      ensures time == if old(time) + dt > cfg.alienSpeed then 0.0 else old(time) + dt
      ensures step == if old(time) + dt > cfg.alienSpeed then old(step) + 1 else old(step)
      ensures old(time) + dt <= cfg.alienSpeed ==> aliens == old(aliens) && direction == old(direction)
      ensures old(time) + dt > cfg.alienSpeed && old(MarchesSideways(cfg, aliens, direction)) ==>
                aliens == Shift(old(aliens), (old(direction) * cfg.alienHWalk) as real, 0.0) && direction == old(direction)
      ensures old(time) + dt > cfg.alienSpeed && !old(MarchesSideways(cfg, aliens, direction)) ==>
                aliens == Shift(old(aliens), 0.0, -(cfg.alienVWalk as real)) && direction == -old(direction)
      ensures LiveCount(aliens) == old(LiveCount(aliens))
    {
      var t := time + dt;
      if t > cfg.alienSpeed {
        ghost var g0 := aliens;
        MoveAliens();
        SameLiveSameCount(cfg, g0, aliens);
        time, step := 0.0, step + 1;
      } else {
        time := t;
      }
    }

    /** update's firing passes: the player's bolts move and the player may
        fire, then the aliens may fire. */
    method Fire(up: bool)
      requires cfg.Valid() && Shaped(cfg, aliens) && !Cleared(aliens)
      requires Distinct(bolts) && PlayerCount(bolts) <= 1 && 0 <= step <= blank <= cfg.boltRate
      modifies this`bolts, bolts, this`step, this`blank
      ensures Distinct(bolts) && PlayerCount(bolts) <= 1 && 0 <= step < blank <= cfg.boltRate
    {
      ShipBolt(up);
      AlienBolt();
    }

    /** update's collision passes: aliens hit by player bolts, then the
        ship hit by alien bolts. */
    method Collide()
      requires Steady()
      modifies this`aliens, this`bolts, this`score, this`detect
      ensures Steady()
      ensures score >= old(score) && LiveCount(aliens) <= old(LiveCount(aliens))
      ensures EmptiesOnly(old(aliens), aliens)
      ensures ship == null ==> !detect
    {
      ghost var g1 := aliens;
      HitPassConserves(cfg, HitState(aliens, bolts, score));
      DeleteAliens();
      EmptiesKeepFormation(cfg, g1, aliens, marchX, marchY);
      DeleteShip();
    }

    // -------------------------------------------------------------------
    // March

    /** _movealien: march sideways while the gap to the edge the formation
        walks towards exceeds ALIEN_H_SEP, otherwise drop and turn round. */
    method MoveAliens()
      requires cfg.Valid() && InFormation(cfg, aliens, marchX, marchY) && !Cleared(aliens)
      requires direction == 1 || direction == -1
      modifies this`aliens, this`direction, this`marchX, this`marchY
      ensures old(MarchesSideways(cfg, aliens, direction)) ==>
                aliens == Shift(old(aliens), (old(direction) * cfg.alienHWalk) as real, 0.0) && direction == old(direction)
      ensures !old(MarchesSideways(cfg, aliens, direction)) ==>
                aliens == Shift(old(aliens), 0.0, -(cfg.alienVWalk as real)) && direction == -old(direction)
      ensures InFormation(cfg, aliens, marchX, marchY) && (direction == 1 || direction == -1)
      ensures SameLive(old(aliens), aliens)
    {
      var sideways := MarchTest();
      MarchBy(sideways);
    }

    /** _movealien's two moves: sideways by ALIEN_H_WALK in the walking
        direction, or down by ALIEN_V_WALK and turn round. */
    method MarchBy(sideways: bool)
      requires InFormation(cfg, aliens, marchX, marchY) && (direction == 1 || direction == -1)
      modifies this`aliens, this`direction, this`marchX, this`marchY
      ensures sideways ==>
                aliens == Shift(old(aliens), (old(direction) * cfg.alienHWalk) as real, 0.0) && direction == old(direction)
      ensures !sideways ==>
                aliens == Shift(old(aliens), 0.0, -(cfg.alienVWalk as real)) && direction == -old(direction)
      ensures InFormation(cfg, aliens, marchX, marchY) && (direction == 1 || direction == -1)
      ensures SameLive(old(aliens), aliens)
    {
      var sx, sy, turn := 0.0, -(cfg.alienVWalk as real), -direction;
      if sideways {
        sx, sy, turn := (direction * cfg.alienHWalk) as real, 0.0, direction;
      }
      ShiftKeepsFormation(cfg, aliens, marchX, marchY, sx, sy);
      var h := ShiftAliens(aliens, sx, sy);
      aliens, direction, marchX, marchY := h, turn, marchX + sx, marchY - sy;
    }

    /** _movealien's test: the gap between the formation's outer alien on
        the side it walks towards and that edge of the screen is larger than
        ALIEN_H_SEP. */
    method MarchTest() returns (sideways: bool)
      requires InFormation(cfg, aliens, marchX, marchY) && !Cleared(aliens)
      ensures sideways == MarchesSideways(cfg, aliens, direction)
    {
      var lr, lc := CheckLeft();
      var rr, rc := CheckRight();
      var right1 := cfg.gameWidth as real - (aliens[rr][rc].value.x + (cfg.alienWidth / 2) as real);
      var left1 := aliens[lr][lc].value.x - (cfg.alienWidth / 2) as real;
      var rightresult := direction == 1 && right1 > cfg.alienHSep as real;
      var leftresult := direction == -1 && left1 > cfg.alienHSep as real;
      sideways := rightresult || leftresult;
    }

    /** The loops of _movealien: every live alien moves by (dx, dy). */
    static method ShiftAliens(g: Grid, dx: real, dy: real) returns (h: Grid)
      ensures h == Shift(g, dx, dy)
    {
      h := g;
      var r := 0;
      while r < |h|
        invariant 0 <= r <= |h| && |h| == |g|
        invariant forall i :: 0 <= i < |g| ==> |h[i]| == |g[i]|
        invariant forall i, j :: 0 <= i < r && 0 <= j < |g[i]| ==> h[i][j] == ShiftSlot(g[i][j], dx, dy)
        invariant forall i :: r <= i < |g| ==> h[i] == g[i]
      {
        var c := 0;
        while c < |h[r]|
          invariant |h| == |g| && r < |h| && 0 <= c <= |h[r]|
          invariant forall i :: 0 <= i < |g| ==> |h[i]| == |g[i]|
          invariant forall i, j :: 0 <= i < r && 0 <= j < |g[i]| ==> h[i][j] == ShiftSlot(g[i][j], dx, dy)
          invariant forall j :: 0 <= j < c ==> h[r][j] == ShiftSlot(g[r][j], dx, dy)
          invariant forall j :: c <= j < |g[r]| ==> h[r][j] == g[r][j]
          invariant forall i :: r < i < |g| ==> h[i] == g[i]
        {
          if h[r][c].Some? {
            var a := h[r][c].value;
            h := h[r := h[r][c := Some(Alien(a.x + dx, a.y + dy))]];
          }
          c := c + 1;
        }
        r := r + 1;
      }
      var s := Shift(g, dx, dy);
      assert forall i :: 0 <= i < |g| ==> h[i] == s[i];
    }

    /** _checkright: the rightmost live column and the last (highest) row
        holding an alien in it. */
    method CheckRight() returns (row: nat, col: nat)
      requires Rect(aliens) && !Cleared(aliens)
      ensures Live(aliens, row, col)
      ensures col == MaxLiveCol(aliens) && row == TopRowIn(aliens, col)
    {
      var max1 := 0;
      row := 0;
      ghost var found := false;
      var r := 0;
      while r < |aliens|
        invariant 0 <= r <= |aliens|
        invariant RightScan(aliens, r, 0, found, row, max1)
      {
        var n := aliens[r];
        var a := 0;
        while a < |n|
          invariant 0 <= a <= |n|
          invariant RightScan(aliens, r, a, found, row, max1)
        {
          if n[a].Some? {
            if a >= max1 {
              max1 := a;
              row := r;
              found := true;
            }
          }
          a := a + 1;
        }
        r := r + 1;
      }
      col := max1;
      ghost var r0, c0 :| Live(aliens, r0, c0);
      assert found && Live(aliens, row, col);
      assert ColumnLive(aliens, col);
      ghost var m := MaxLiveCol(aliens);
      ghost var t := TopRowIn(aliens, m);
      assert Live(aliens, t, m);
      assert m == col;
    }

    /** _checkleft as evidently intended: the leftmost live column and the
        last row holding an alien in it.  The row is updated only with the
        column (the as-written scan is CheckLeftAsWritten). */
    method CheckLeft() returns (row: nat, col: nat)
      requires Rect(aliens) && !Cleared(aliens)
      ensures Live(aliens, row, col)
      ensures col == MinLiveCol(aliens) && row == TopRowIn(aliens, col)
    {
      var min1 := 0;
      row := 0;
      var found := false;
      var r := 0;
      while r < |aliens|
        invariant 0 <= r <= |aliens|
        invariant LeftScan(aliens, r, 0, found, row, min1)
      {
        var n := aliens[r];
        var a := 0;
        while a < |n|
          invariant 0 <= a <= |n|
          invariant LeftScan(aliens, r, a, found, row, min1)
        {
          if n[a].Some? {
            if !found || a <= min1 {
              min1 := a;
              row := r;
              found := true;
            }
          }
          a := a + 1;
        }
        r := r + 1;
      }
      col := min1;
      ghost var r0, c0 :| Live(aliens, r0, c0);
      assert found && Live(aliens, row, col);
      assert ColumnLive(aliens, col);
      ghost var m := MinLiveCol(aliens);
      ghost var t := TopRowIn(aliens, m);
      assert Live(aliens, t, m);
      assert m == col;
    }

    /** _checkleft as written: the minimum of every live column seen, paired
        with the row of the last live alien seen.  CheckLeftAsWrittenMisses
        shows this slot can be empty. */
    method CheckLeftAsWritten() returns (row: nat, col: nat)
      requires Rect(aliens) && !Cleared(aliens)
      ensures col == MinLiveCol(aliens) && row == LastLiveRow(aliens)
    {
      var mlist: seq<int> := [];
      var min1 := 0;
      row := 0;
      ghost var lastc := 0;
      var r := 0;
      while r < |aliens|
        invariant 0 <= r <= |aliens|
        invariant AsWrittenScan(aliens, r, 0, mlist, min1, row, lastc)
      {
        var n := aliens[r];
        var a := 0;
        while a < |n|
          invariant 0 <= a <= |n|
          invariant AsWrittenScan(aliens, r, a, mlist, min1, row, lastc)
        {
          if n[a].Some? {
            assert ColumnLive(aliens, a) by { assert Live(aliens, r, a); }
            mlist := mlist + [a];
            min1 := SeqMin(mlist);
            row := r;
            lastc := a;
          }
          a := a + 1;
        }
        r := r + 1;
      }
      col := min1;
      ghost var r0, c0 :| Live(aliens, r0, c0);
      assert Before(r0, c0, |aliens|, 0);
      assert |mlist| > 0;
      assert RowLive(aliens, row) by { assert Live(aliens, row, lastc); }
      ghost var m := LastLiveRow(aliens);
      ghost var cm :| 0 <= cm < |aliens[m]| && Live(aliens, m, cm);
      assert Before(m, cm, |aliens|, 0);
      assert m == row;
      ghost var mc := MinLiveCol(aliens);
      ghost var ti := TopRowIn(aliens, mc);
      assert Live(aliens, ti, mc) && Before(ti, mc, |aliens|, 0);
      assert mc in mlist;
      ghost var kk :| 0 <= kk < |mlist| && mlist[kk] == min1;
      assert ColumnLive(aliens, min1);
      assert mc == col;
    }

    // -------------------------------------------------------------------
    // Bolts

    /** _shipbolt: drop the bolts that are out, move the others; then, when
        fire is pressed, no explosion runs, the ship exists and none of the
        surviving bolts is the player's, fire a new player bolt from the
        ship. */
    method ShipBolt(up: bool)
      requires Distinct(bolts)
      modifies this`bolts, bolts
      ensures var kept := Kept(old(bolts), OutFlags(cfg, old(Heights(bolts))));
              var fire := up && animator.Idle? && ship != null && forall b :: b in kept ==> !b.IsPlayerBolt();
              && (!fire ==> bolts == kept)
              && (fire ==> |bolts| == |kept| + 1 && bolts[..|kept|] == kept && fresh(bolts[|kept|])
                           && bolts[|kept|].x == ship.x && bolts[|kept|].y == ShipBoltY(cfg)
                           && bolts[|kept|].velocity == cfg.boltSpeed)
      ensures AllAdvanced(cfg, old(bolts), old(Heights(bolts)))
      ensures Distinct(bolts)
      ensures old(PlayerCount(bolts)) <= 1 ==> PlayerCount(bolts) <= 1
    {
      var add := Prune();
      if animator.Idle? && up && add && ship != null {
        Shoot();
      }
    }

    /** _shipbolt's loop: the bolts that are out are deleted, the others
        moved; add reports that no surviving bolt is the player's. */
    method Prune() returns (add: bool)
      requires Distinct(bolts)
      modifies this`bolts, bolts
      ensures bolts == Kept(old(bolts), OutFlags(cfg, old(Heights(bolts))))
      ensures AllAdvanced(cfg, old(bolts), old(Heights(bolts)))
      ensures add <==> forall b :: b in bolts ==> !b.IsPlayerBolt()
      ensures Distinct(bolts) && PlayerCount(bolts) <= old(PlayerCount(bolts))
    {
      ghost var orig, ys := bolts, Heights(bolts);
      ghost var out := OutFlags(cfg, ys);
      KeptDistinct(orig, out);
      KeptPlayers(orig, out);
      var keep;
      keep, add := MoveBolts(cfg, bolts);
      assert keep == Kept(orig, out) && AllAdvanced(cfg, orig, ys);
      bolts := keep;
    }

    /** _shipbolt's firing: a new bolt at the ship's x, SHIP_HEIGHT+SHIP_BOTTOM
        high, moving up at BOLT_SPEED, goes at the end of the list. */
    method Shoot()
      requires ship != null && Distinct(bolts) && forall b :: b in bolts ==> !b.IsPlayerBolt()
      modifies this`bolts
      ensures |bolts| == |old(bolts)| + 1 && bolts[..|old(bolts)|] == old(bolts) && fresh(bolts[|old(bolts)|])
      ensures bolts[|old(bolts)|].x == ship.x && bolts[|old(bolts)|].y == ShipBoltY(cfg)
      ensures bolts[|old(bolts)|].velocity == cfg.boltSpeed
      ensures Distinct(bolts) && PlayerCount(bolts) <= 1
    {
      var sbolt := new Bolt(ship.x, ShipBoltY(cfg), cfg.boltSpeed);
      NoPlayers(bolts);
      FiltersAppend(bolts, [sbolt]);
      SingleFilters(sbolt);
      DistinctAppend(bolts, sbolt);
      bolts := bolts + [sbolt];
    }

    /** _alienbolt: when the step count reaches the threshold, a randomly
        chosen live column fires from its frontmost alien, the step count
        restarts and a new threshold is drawn from [1, BOLT_RATE]. */
    method AlienBolt()
      requires cfg.Valid() && Shaped(cfg, aliens) && (step == blank ==> !Cleared(aliens))
      modifies this`bolts, this`step, this`blank
      ensures old(step) != old(blank) ==> bolts == old(bolts) && step == old(step) && blank == old(blank)
      ensures old(step) == old(blank) ==>
                && step == 0 && 1 <= blank <= cfg.boltRate
                && |bolts| == |old(bolts)| + 1 && bolts[..|old(bolts)|] == old(bolts)
                && fresh(bolts[|old(bolts)|])
                && exists c :: ColumnLive(aliens, c) && FiredFrom(cfg, aliens, c, bolts[|old(bolts)|])
      ensures PlayerCount(bolts) == old(PlayerCount(bolts))
      ensures Distinct(old(bolts)) ==> Distinct(bolts)
    {
      if step == blank {
        var c, r := PickShooter();
        var a := aliens[r][c].value;
        var abolt := new Bolt(a.x, a.y - (cfg.alienHeight / 2) as real, -(cfg.boltSpeed as int));
        FiltersAppend(bolts, [abolt]);
        SingleFilters(abolt);
        if Distinct(bolts) {
          DistinctAppend(bolts, abolt);
        }
        bolts := bolts + [abolt];
        step := 0;
        var nb :| 1 <= nb <= cfg.boltRate;
        blank := nb;
        assert FiredFrom(cfg, aliens, c, abolt);
      }
    }

    /** _alienbolt's choice of shooter: a column drawn at random from the
        live columns, and the row of its frontmost alien. */
    method PickShooter() returns (c: int, r: int)
      requires Shaped(cfg, aliens) && !Cleared(aliens)
      ensures ColumnLive(aliens, c) && r == FrontRow(aliens, c)
    {
      var alist := Shooters(cfg, aliens);
      var shooter := FrontRows(cfg, aliens, alist);
      assert |alist| > 0 by {
        var r, c :| Live(aliens, r, c);
        assert ColumnLive(aliens, c);
        assert c in alist;
      }
      var s0 :| 0 <= s0 < |alist|;
      c, r := alist[s0], shooter[s0];
    }

    /** _deletealien: every live alien, row by row, is checked against the
        bolts in list order; the first player bolt that hits it is removed,
        the alien's slot is emptied and the row's points are scored. */
    method DeleteAliens()
      requires Distinct(bolts)
      modifies this`aliens, this`bolts, this`score
      ensures HitState(aliens, bolts, score) == old(HitPass(cfg, HitState(aliens, bolts, score)))
      ensures Distinct(bolts)
    {
      var st := HitAll(cfg, HitState(aliens, bolts, score));
      aliens, bolts, score := st.grid, st.bolts, st.score;
    }

    /** _deleteship: with a ship, every bolt that hits it (in the source's
        skipping iteration) is removed and a hit is detected; without one,
        nothing is detected. */
    method DeleteShip()
      requires Distinct(bolts)
      modifies this`bolts, this`detect
      ensures ship == null ==> bolts == old(bolts) && !detect
      ensures ship != null ==>
                && bolts == old(ShipPass(cfg, ship, bolts, 0)).bolts
                && detect == (old(detect) || old(ShipPass(cfg, ship, bolts, 0)).hit)
      ensures Distinct(bolts) && PlayerCount(bolts) == old(PlayerCount(bolts))
    {
      if ship != null {
        ghost var r0 := ShipPass(cfg, ship, bolts, 0);
        ShipPassRemovesOnlyHits(cfg, ship, bolts, 0);
        ghost var h := false;
        var j := 0;
        while j < |bolts|
          invariant 0 <= j && Distinct(bolts)
          invariant ShipPass(cfg, ship, bolts, j).bolts == r0.bolts
          invariant r0.hit == (h || ShipPass(cfg, ship, bolts, j).hit)
          invariant detect == (old(detect) || h)
          decreases |bolts| - j
        {
          if ship.Collides(cfg, bolts[j]) {
            RemoveFirstAt(bolts, j);
            RemoveAtDistinct(bolts, j);
            bolts := RemoveFirst(bolts, bolts[j]);
            detect := true;
            h := true;
          }
          j := j + 1;
        }
      } else {
        detect := false;
      }
    }

    // -------------------------------------------------------------------
    // Explosion

    /** _animation: a running explosion advances by dt; when it completes the
        ship is gone, the bolts are cleared, the player is dead and loses one
        life.  Otherwise a detected hit starts the explosion. */
    method Animation(dt: real)
      requires cfg.Valid() && (detect ==> ship != null)
      modifies this`animator, this`ship, this`bolts, this`dead, this`lives, Targets(animator)`frame
      ensures old(animator).Exploding? ==>
                var t := old(animator).target;
                var now := old(animator).elapsed + dt;
                && t.frame == FrameIndex(cfg, now)
                && (t.frame >= cfg.shipFrames ==>
                      animator == Idle && ship == null && bolts == [] && dead && lives == old(lives) - 1)
                && (t.frame < cfg.shipFrames ==>
                      animator == Exploding(t, now) && ship == old(ship) && bolts == old(bolts)
                      && dead == old(dead) && lives == old(lives))
      ensures old(animator).Idle? ==>
                && animator == (if old(detect) then Exploding(old(ship), 0.0) else Idle)
                && ship == old(ship) && bolts == old(bolts) && dead == old(dead) && lives == old(lives)
    {
      if animator.Exploding? {
        var t := animator.target;
        var now, finished := t.Animate(cfg, animator.elapsed, dt);
        if finished {
          animator := Idle;
          ship := null;
          bolts := [];
          dead := true;
          lives := lives - 1;
        } else {
          animator := Exploding(t, now);
        }
      } else if detect {
        animator := Exploding(ship, 0.0);
      }
    }

    // -------------------------------------------------------------------
    // Defense line and victory

    /** _checkline: an alien at or below the defense line loses the game
        (not won, dead, no lives left); an empty grid wins it (won, dead). */
    method CheckLine()
      requires Shaped(cfg, aliens)
      modifies this`win, this`dead, this`lives
      ensures win == (Cleared(aliens) || (!Breach(cfg, aliens) && old(win)))
      ensures dead == (Cleared(aliens) || Breach(cfg, aliens) || old(dead))
      ensures lives == if Breach(cfg, aliens) then 0 else old(lives)
    {
      var flag, breach := ScanLine(cfg, aliens);
      if breach {
        win, dead, lives := false, true, 0;
      }
      EmptiesFillGridIffCleared(cfg, aliens);
      if flag == cfg.alienRows * cfg.aliensInRow {
        dead := true;
        win := true;
      }
    }

    // -------------------------------------------------------------------
    // Between lives

    /** setDead. */
    method SetDead(yesno: bool)
      modifies this`dead
      ensures dead == yesno
    {
      dead := yesno;
    }

    /** setShip: a restart rebuilds the ship at x = GAME_WIDTH//2 and
        y = SHIP_BOTTOM+SHIP_WIDTH//2 (not the SHIP_HEIGHT//2 of the first
        ship). */
    method SetShip(restart: bool)
      modifies this`ship
      ensures restart ==> ship != null && fresh(ship) && ship.frame == 0
                          && ship.x == (cfg.gameWidth / 2) as real
                          && ship.y == (cfg.shipBottom + cfg.shipWidth / 2) as real
      ensures !restart ==> ship == old(ship)
    {
      if restart {
        ship := new Ship((cfg.gameWidth / 2) as real, (cfg.shipBottom + cfg.shipWidth / 2) as real);
      }
    }

    /** resumegame: alive again, with a new ship, and no hit pending.  The
        game resumes a wave only while lives are left and it is not won. */
    method ResumeGame()
      requires Valid() && lives >= 1 && !win
      modifies this`dead, this`ship, this`detect
      ensures Valid()
      ensures !dead && !detect && ship != null && fresh(ship)
      ensures ship.x == (cfg.gameWidth / 2) as real && ship.y == (cfg.shipBottom + cfg.shipWidth / 2) as real
    {
      SetDead(false);
      SetShip(true);
      detect := false;
      SpawnInBounds(cfg);
    }
  }
}
