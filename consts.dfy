/** The game's constants (the `consts` module of the game), taken as parameters
    that stay fixed for the lifetime of a wave.  Lengths are in pixels, times in
    seconds.  Only the assumptions the wave logic relies on are stated. */
module Consts {

  datatype Config = Config(
    gameWidth: nat,
    gameHeight: nat,
    shipWidth: nat,
    shipHeight: nat,
    shipBottom: nat,
    shipMovement: nat,
    shipLives: nat,
    shipFrames: nat,     // frames of the ship's explosion strip (the sprite is built with format (2,4))
    alienWidth: nat,
    alienHeight: nat,
    alienHSep: nat,
    alienVSep: nat,
    alienCeiling: nat,
    alienRows: nat,
    aliensInRow: nat,
    alienHWalk: nat,
    alienVWalk: nat,
    alienSpeed: real,    // seconds between two marches
    alienPoints: nat,
    boltSpeed: nat,
    boltHeight: nat,
    boltRate: nat,       // upper bound of the random number of marches between alien shots
    defenseLine: int,
    deathSpeed: real)    // seconds the ship's explosion lasts
  {
    predicate Valid() {
      && alienRows >= 1
      && aliensInRow >= 1
      && shipLives >= 1
      && boltSpeed > 0
      && boltRate >= 1
      && gameWidth >= shipWidth
      // the ship's spawn point GAME_WIDTH//2 lies inside the range Ship.move clamps to
      && shipWidth as real / 2.0 <= (gameWidth / 2) as real
      && shipFrames >= 1
      && deathSpeed > 0.0
    }

    /** Lowest x the ship is clamped to when moving left (SHIP_WIDTH/2, a true division). */
    function ShipMinX(): real {
      shipWidth as real / 2.0
    }

    /** Highest x the ship is clamped to when moving right (GAME_WIDTH-SHIP_WIDTH//2). */
    function ShipMaxX(): real {
      (gameWidth - shipWidth / 2) as real
    }
  }
}
