# Alien Invaders: one wave

A model of one wave of the Alien Invaders game: the `Wave` subcontroller of
`invaders/wave.py` and the model objects it drives in `invaders/models.py`
(the ship, the aliens and the laser bolts).  A wave is a frame-stepped state
machine.  Each call of `update(dt, input)` does the following in order:

1. moves the ship when an arrow key is down;
2. advances the march timer and, when it passes `ALIEN_SPEED`, marches the
   alien formation and advances the firing counter;
3. moves and prunes the bolts, and lets the player and the aliens fire;
4. removes the aliens and the bolts that hit one, scoring points by row;
5. removes the alien bolts that hit the ship and starts or advances its
   explosion;
6. finally sets the terminal flags when an alien crosses the defense line or
   the grid is empty.

Files:

- `consts.dfy`: the game's constants, as a `Config` parameter fixed for the
  whole wave. `Config.Valid` states the few facts about them that the wave
  relies on.
- `models.dfy`:
  - `Ship` and `Bolt` are classes, because the source moves them in place.
  - An alien is a value. The wave reads or shifts an alien's position, or
    empties its slot, and no other reference to an alien exists.
  - The collision tests keep the source's corner construction.
  - The explosion coroutine is a step method (`Ship.Animate`).
- `formation.dfy`: the alien grid (`seq<seq<Option<Alien>>>`) and the
  functions the wave's methods are proved against, with their lemmas.
  These cover:
  - the layout and the formation invariant (x depends only on the column,
    y only on the row);
  - the march test;
  - the live columns and their front rows;
  - counting aliens and empty slots;
  - the points per row and the value of the grid;
  - the defense line.
- `volley.dfy`: the bolt list and the three passes over it.
  - Pruning and moving (`_shipbolt`).
  - The alien-hit pass (`_deletealien`), with its conservation law: the
    score plus the value of the remaining aliens is constant, and each
    removed bolt kills exactly one alien.
  - The ship-hit pass (`_deleteship`), including the source's skipping
    iteration.
- `wave.dfy`: the class `Wave`.
  - Its fields are the source's attributes, plus two ghost fields recording
    how far the formation has marched.
  - `Update` is split the way `update` is written: `Steer`, then `Advance`,
    which is `March` followed by `Resolve` (`Fire`, `Collide`, `Settle`).
  - Each private method of the source is a method of its own.

Between frames the wave keeps `Valid()`, which `Update` preserves:

- the grid is `ALIEN_ROWS x ALIENS_IN_ROW` and every live alien stands in
  formation;
- the direction is 1 or -1;
- the bolt list holds no object twice and at most one player bolt;
- the ship, if any, is inside its clamp range;
- `0 <= _step < _blank <= BOLT_RATE`;
- the score is non-negative;
- `_win` holds exactly when the grid is empty, and a won wave is also dead;
- `0 <= _lives <= SHIP_LIVES`, and a live player has at least one life.

Two details of the source the model keeps:

- The explosion frame is `int(time/DEATH_SPEED*count)+1`: one more than
  the truncated product.
- Completing the explosion leaves `_detect` set. The wave is then dead, so
  the game stops calling `update` until `resumegame`, which clears it
  (invaders/wave.py:233-235).

## Model

| member | source | states |
|---|---|---|
| Models.Bolt.constructor | invaders/models.py:262-277 | a new bolt has the given x, y and velocity; the velocity is a constant field, as the source has no setter for it |
| Models.Bolt.Move | invaders/models.py:280-284 | move adds the velocity to y; x and the velocity cannot change |
| Models.Bolt.IsPlayerBolt | invaders/models.py:286-293 | a bolt is the player's exactly when its velocity is positive |
| Models.Bolt.Out | invaders/models.py:295-304 | out() is the test at the bolt's current height |
| Models.OutAt | invaders/models.py:295-304 | a bolt at height y is out when its bottom is at or above GAME_HEIGHT or its top at or below 0; BoltLeavesScreen states that every moving bolt gets there |
| Models.BoltLeavesScreen | invaders/models.py:295-304 | a bolt with non-zero velocity is out after finitely many moves, from any height |
| Models.CornerHitMissesOnlyUpperLeft | invaders/models.py:98-103 | the duplicated `br` corner only loses hits: every reported hit is a hit of the true four-corner test, and a missed one has the bolt left of and above the target's centre |
| Models.CornerHitMissExample | invaders/models.py:214-219 | a concrete bolt position that the true four-corner test reports as a hit and the source's test misses |
| Models.NoBoltHitsBoth | invaders/models.py:104-107 | scollides holds only for alien bolts, acollides (lines 220-223) only for player bolts, so no bolt hits both |
| Models.Ship.Collides | invaders/models.py:89-109 | scollides: some corner of the bolt-centred box lies in the ship and the bolt moves down; NoBoltHitsBoth states what it excludes |
| Models.AlienCollides | invaders/models.py:205-225 | acollides: some corner of the bolt-centred box lies in the alien and the bolt moves up |
| Models.Corners | invaders/models.py:98-103 | the four corners tl, tr, bl, br at the target's half sizes around the bolt, with br equal to bl as in the source (also lines 214-219); CornerHitMissesOnlyUpperLeft states what that costs |
| Models.CornerHit | invaders/models.py:104-107 | some of the four corners lies in the target's box (also lines 220-223) |
| Models.Ship.constructor | invaders/models.py:72-87 | a new ship stands at the given position with frame 0 |
| Models.Ship.Move | invaders/models.py:111-126 | move(True) sets x to min(GAME_WIDTH-SHIP_WIDTH//2, x+SHIP_MOVEMENT); move(False) sets x to max(SHIP_WIDTH/2, x-SHIP_MOVEMENT) |
| Models.MovedX | invaders/models.py:121-126 | moving right gives x+SHIP_MOVEMENT or the right clamp, never beyond it; moving left gives x-SHIP_MOVEMENT or the left clamp, never below it |
| Models.MoveStaysInBounds | invaders/models.py:111-126 | a ship inside the clamp range stays inside it; right never decreases x, left never increases it, and x changes by at most SHIP_MOVEMENT |
| Models.SpawnInBounds | invaders/wave.py:152 | the spawn point GAME_WIDTH//2 is inside the clamp range |
| Models.Ship.Animate | invaders/models.py:142-154 | one resumption adds dt to the elapsed time, shows frame int(time/DEATH_SPEED*count)+1, and reports the end exactly when that frame is at least the frame count |
| Models.FrameIndex | invaders/models.py:151 | the frame int(time/DEATH_SPEED*count)+1, with Python's truncating int(); FrameIndexMonotone states its order |
| Models.FrameIndexMonotone | invaders/models.py:147-151 | for non-negative dt the frame index never goes back and is at least 1 |
| Models.FinishedIff | invaders/models.py:151-154 | the explosion has ended exactly when time*count >= DEATH_SPEED*(count-1) |
| Models.FinishedAfterDeathSpeed | invaders/models.py:129-154 | the explosion is over once DEATH_SPEED seconds have accumulated |
| Formation.LayoutOrder | invaders/wave.py:245-247 | columns go left to right, rows bottom to top with row 0 lowest, and the top row sits ALIEN_CEILING below the top of the screen |
| Formation.Shift | invaders/wave.py:270-278 | every live alien moves by the given offset, and empty slots stay empty |
| Formation.ShiftKeepsFormation | invaders/wave.py:270-278 | a march keeps the same slots live and keeps the formation, displaced by the march |
| Formation.LastLiveColBelow | invaders/wave.py:432-439 | the largest live column below n, or -1 when there is none |
| Formation.FirstLiveColFrom | invaders/wave.py:449-455 | the smallest live column from n up, or the width when there is none |
| Formation.MaxLiveCol | invaders/wave.py:426-440 | the rightmost live column, above every live column |
| Formation.MinLiveCol | invaders/wave.py:442-457 | the leftmost live column, below every live column |
| Formation.LastLiveRowIn | invaders/wave.py:432-439 | the largest row below n that holds an alien in column c, or -1 |
| Formation.TopRowIn | invaders/wave.py:437-439 | the highest row holding an alien in a live column |
| Formation.FrontRowFrom | invaders/wave.py:329-333 | the smallest row from n up that holds an alien in column c, or the row count |
| Formation.FrontRow | invaders/wave.py:327-333 | the frontmost alien of a live column: the lowest row holding one |
| Formation.LastLiveRowBelow | invaders/wave.py:449-456 | the largest row below n holding any alien, or -1 |
| Formation.LastLiveRow | invaders/wave.py:449-456 | the highest row holding any alien (the row the as-written _checkleft returns) |
| Formation.MarchTestByColumns | invaders/wave.py:263-268 | in formation the march test reads off the outermost live columns |
| Formation.SidewaysStaysOnScreen | invaders/wave.py:267-273 | when ALIEN_H_WALK <= ALIEN_H_SEP, a sideways march from an on-screen formation keeps every alien's whole width on screen |
| Formation.LiveColumns | invaders/wave.py:318-326 | exactly the live columns below n, strictly increasing (so each appears once) |
| Formation.LiveRowsIn | invaders/wave.py:329-332 | exactly the rows below n holding an alien in column c |
| Formation.LiveRowsNonEmptyIff | invaders/wave.py:320-324 | a column's count of aliens is positive exactly when the column is live |
| Formation.SeqMin | invaders/wave.py:333 | min of a non-empty list: an element no larger than any other |
| Formation.MinLiveRowIsFront | invaders/wave.py:333 | min(keep) is the frontmost alien of the column |
| Formation.Shooters | invaders/wave.py:318-326 | the column scan of _alienbolt yields exactly the live columns, in order and without repeats |
| Formation.ColumnCount | invaders/wave.py:320-323 | the count is the number of rows holding an alien in the column |
| Formation.KeepRows | invaders/wave.py:329-332 | keep is exactly the rows holding an alien in the column, in order |
| Formation.FrontRows | invaders/wave.py:327-333 | each live column's shooter row is its frontmost alien |
| Formation.CheckLeftAsWrittenMisses | invaders/wave.py:442-457 | a two-row grid on which the slot the as-written scan returns is empty |
| Formation.RowCount | invaders/wave.py:413-421 | a row holds no more aliens than slots |
| Formation.RowCountZero | invaders/wave.py:413-421 | a row's count is 0 exactly when all its slots are empty, and full exactly when none is |
| Formation.CountRowsZero | invaders/wave.py:413-421 | the first n rows count 0 exactly when none of them holds an alien |
| Formation.LiveCountZeroIffCleared | invaders/wave.py:413-424 | the live count is 0 exactly when the grid is cleared |
| Formation.RowCountKill | invaders/wave.py:363 | emptying a live slot lowers its row's count by one |
| Formation.CountRowsKill | invaders/wave.py:363 | emptying a live slot lowers the count of the rows that contain it by one |
| Formation.KillDecrementsCount | invaders/wave.py:363 | emptying a live slot lowers the live count by exactly one |
| Formation.CountRowsFull | invaders/wave.py:241-251 | full rows hold width aliens each |
| Formation.FullCount | invaders/wave.py:241-251 | a full grid holds ALIEN_ROWS*ALIENS_IN_ROW aliens |
| Formation.RowCountSame | invaders/wave.py:270-278 | rows with the same live slots count the same |
| Formation.CountRowsSame | invaders/wave.py:270-278 | grids with the same live slots have equal counts and equal values row by row |
| Formation.SameLiveSameCount | invaders/wave.py:253-279 | marching changes neither the number of aliens nor what they are worth |
| Formation.RowEmpties | invaders/wave.py:420-421 | a row has no more empty slots than slots |
| Formation.RowEmptiesAll | invaders/wave.py:420-421 | a row's empty count equals its length exactly when all its slots are empty |
| Formation.EmptyRowsAll | invaders/wave.py:412-422 | the empty count is at most n*width, and equals it exactly when the first n rows hold no alien |
| Formation.EmptiesFillGridIffCleared | invaders/wave.py:422 | _checkline's count reaches ALIEN_ROWS*ALIENS_IN_ROW exactly when the grid is cleared |
| Formation.ScanLine | invaders/wave.py:412-421 | the scan counts exactly the empty slots and finds a breach exactly when some live alien has y-ALIEN_HEIGHT//2 <= DEFENSE_LINE |
| Formation.BreachNeedsAlien | invaders/wave.py:415-416 | a breach needs a live alien |
| Formation.Breaches | invaders/wave.py:415-416 | an alien breaches when y-ALIEN_HEIGHT//2 is at or below DEFENSE_LINE |
| Formation.Breach | invaders/wave.py:412-416 | some live alien of the grid breaches; ScanLine computes it |
| Formation.PointsByRow | invaders/wave.py:358-361 | row 0's ALIEN_POINTS*ALIEN_ROWS is the general ALIEN_POINTS*(ALIEN_ROWS-i); points on the grid are non-negative and do not increase with the row |
| Formation.Points | invaders/wave.py:358-361 | ALIEN_POINTS*ALIEN_ROWS for row 0 and ALIEN_POINTS*(ALIEN_ROWS-i) above it; PointsByRow states what that amounts to |
| Formation.RowValueKill | invaders/wave.py:363 | emptying a live slot takes one alien's points off its row |
| Formation.ValueRowsKill | invaders/wave.py:358-363 | emptying a live slot takes its row's points off the value of the rows that contain it |
| Formation.KillValue | invaders/wave.py:358-363 | emptying the slot of a row r alien takes exactly that row's points off the grid's value |
| Volley.FiltersAppend | invaders/wave.py:306 | the player and alien bolts of a concatenation are those of its parts, in order |
| Volley.RemoveAt | invaders/wave.py:364 | removing one bolt shortens the list by one and adds nothing |
| Volley.RemoveFirst | invaders/wave.py:364 | list.remove: one bolt fewer when the bolt is present (also line 377), the list unchanged when it is not, and nothing added |
| Volley.RemoveFirstAt | invaders/wave.py:364 | in a list without repeats, list.remove of the bolt at index j removes exactly index j |
| Volley.RemoveAtDistinct | invaders/wave.py:377 | removing a bolt keeps the list free of repeats and the bolt is gone |
| Volley.NoPlayers | invaders/wave.py:298-299 | a list with no player bolt has no player bolts |
| Volley.RemoveAtFilters | invaders/wave.py:364 | removing one bolt changes only the filter (player or alien) it belongs to |
| Volley.Heights | invaders/wave.py:293-300 | the heights of the bolts, in list order |
| Volley.OutFlags | invaders/models.py:295-304 | flag i is out() at the i-th height |
| Volley.Kept | invaders/wave.py:293-300 | pruning never lengthens the list |
| Volley.KeptStep | invaders/wave.py:294-300 | looking at one more bolt keeps it exactly when it is not out |
| Volley.KeptMembers | invaders/wave.py:294-300 | pruning keeps every bolt that is not out and adds none |
| Volley.KeptDropsOut | invaders/wave.py:294-295 | pruning drops every bolt that is out |
| Volley.KeptDistinct | invaders/wave.py:293-300 | pruning keeps the list free of repeats |
| Volley.KeptPlayers | invaders/wave.py:293-300 | pruning never adds a player bolt |
| Volley.AtMostOnePlayerBolt | invaders/wave.py:291-306 | after pruning and firing at most one player bolt is in flight, since a bolt is fired only when no player bolt survived |
| Volley.MoveBolts | invaders/wave.py:291-300 | the survivors are exactly the bolts not out before moving, in order; each survivor moved one step and each pruned bolt stayed put; add holds exactly when no survivor is a player bolt |
| Volley.StepBolt | invaders/wave.py:294-297 | a bolt that is out is reported gone and stays put; any other moves one step |
| Volley.FirstHit | invaders/wave.py:354-356 | the first bolt from j on that hits the alien, with no hit before it, or the list length |
| Volley.SlotStep | invaders/wave.py:353-364 | one slot of the alien-hit pass removes only bolts from the list |
| Volley.RowPass | invaders/wave.py:352-364 | the pass over a row keeps the grid's shape and removes only bolts from the list |
| Volley.GridPass | invaders/wave.py:350-364 | the pass over the rows keeps the grid's shape and removes only bolts from the list |
| Volley.HitSlot | invaders/wave.py:353-364 | the loop over the bolts for one slot computes the slot step; the first player bolt hitting a live alien is removed, the slot emptied, the row's points scored |
| Volley.HitRow | invaders/wave.py:352-364 | the loop over a row's slots computes the row pass and keeps the list free of repeats |
| Volley.HitAll | invaders/wave.py:350-364 | the loop over the rows computes the whole alien-hit pass and keeps the list free of repeats |
| Volley.ConservesTrans | invaders/wave.py:350-364 | what the alien-hit pass conserves is conserved over consecutive stretches of it |
| Volley.SlotStepConserves | invaders/wave.py:353-364 | one slot empties only, keeps score plus value constant, never lowers the score, kills as many aliens as it removes bolts, removes only player bolts, and keeps the list free of repeats |
| Volley.RowPassConserves | invaders/wave.py:352-364 | the same for the pass over one row |
| Volley.SlotStepExtends | invaders/wave.py:353-364 | conservation so far extends over one more slot |
| Volley.GridPassConserves | invaders/wave.py:350-364 | the same for the rows before n |
| Volley.RowPassExtends | invaders/wave.py:352-364 | conservation so far extends over one more row |
| Volley.HitPassConserves | invaders/wave.py:343-364 | the whole alien-hit pass never lowers the score, never adds an alien, kills exactly as many aliens as it removes bolts (each bolt kills at most one alien), removes only player bolts and keeps score plus value constant |
| Volley.HitPass | invaders/wave.py:343-364 | the whole alien-hit pass keeps the grid's shape and only removes bolts; HitPassConserves states what it conserves |
| Volley.EmptiesKeepFormation | invaders/wave.py:363 | emptying slots keeps the remaining aliens in formation |
| Volley.UntouchedSurvives | invaders/wave.py:354-356 | an alien no player bolt touches keeps its slot |
| Volley.ShipPass | invaders/wave.py:374-379 | the skipping `for` loop of _deleteship only removes bolts |
| Volley.ShipPassHitIff | invaders/wave.py:374-379 | the ship is reported hit exactly when some examined bolt collides with it |
| Volley.ShipPassRemovesOnlyHits | invaders/wave.py:374-377 | only bolts hitting the ship are removed, the player's bolts are all kept in order, and the list stays free of repeats |
| Volley.ShipPassSkipsNext | invaders/wave.py:374-377 | of two consecutive bolts hitting the ship only the first is removed in one pass |
| Waves.Wave.constructor | invaders/wave.py:147-169 | a new wave is valid: full grid in its starting formation, ship at the bottom centre, no bolts, first threshold in [1, BOLT_RATE], score 0, SHIP_LIVES lives |
| Waves.Wave.AddAliens | invaders/wave.py:237-251 | an ALIEN_ROWS x ALIENS_IN_ROW grid with every slot live, x by column and y by row |
| Waves.Wave.Update | invaders/wave.py:172-205 | one frame, taken while the player is alive, keeps the wave valid (lives between 0 and SHIP_LIVES, at least one while alive, a won wave dead), never lowers the score or raises the live count, and resets or accumulates the march timer; until the timer passes ALIEN_SPEED the aliens only lose slots and the direction is kept; past it they are the sideways march (direction kept) or the drop (direction negated) of the old grid, less emptied slots; when an alien ends the frame at or below the defense line the wave is dead, not won, with 0 lives, whatever the explosion did; otherwise at most one life is lost |
| Waves.Wave.Advance | invaders/wave.py:190-205 | everything of update after the ship's move, with the same promises about the timer, the aliens, the direction, the score, a breach and the lives |
| Waves.Wave.Steer | invaders/wave.py:185-189 | the ship moves only when it exists and no explosion runs: right then left, each clamped; otherwise x is unchanged |
| Waves.Wave.March | invaders/wave.py:190-195 | time accumulates dt; until it passes ALIEN_SPEED the aliens and the direction are unchanged; past it the timer restarts, the step count advances by one, and the aliens move direction*ALIEN_H_WALK sideways when the march test allows it (direction kept) or drop ALIEN_V_WALK (direction negated); the live count is kept |
| Waves.Wave.Resolve | invaders/wave.py:197-205 | the passes after the march restore the invariant, never lower the score and only empty slots of the grid; a breach of the final grid leaves the wave dead, not won, with 0 lives; otherwise at most one life is lost |
| Waves.Wave.Fire | invaders/wave.py:197-201 | after both firing passes at most one player bolt is in flight and 0 <= step < blank <= BOLT_RATE |
| Waves.Wave.Collide | invaders/wave.py:202-203 | the collision passes keep the formation, only empty slots, and never lower the score or raise the live count; without a ship no hit is detected |
| Waves.Wave.Settle | invaders/wave.py:204-205 | the explosion and defense-line passes restore the invariant, including win exactly when cleared, win only when dead, and lives within bounds; a breach overrides the explosion with dead, not won and 0 lives; otherwise at most one life is lost |
| Waves.Wave.MoveAliens | invaders/wave.py:253-279 | exactly one of: every alien moves direction*ALIEN_H_WALK sideways with direction kept, or drops ALIEN_V_WALK with direction negated; the direction stays 1 or -1 and empty slots stay empty |
| Waves.Wave.MarchBy | invaders/wave.py:269-279 | each of the two moves shifts the formation and sets the direction accordingly |
| Waves.Wave.MarchTest | invaders/wave.py:263-269 | the march goes sideways exactly when the gap to the edge walked towards exceeds ALIEN_H_SEP |
| Waves.Wave.ShiftAliens | invaders/wave.py:270-278 | the nested loops move every live alien by the offset |
| Waves.Wave.CheckRight | invaders/wave.py:426-440 | returns a live alien: the rightmost live column, its highest live row |
| Waves.Wave.CheckLeft | invaders/wave.py:442-457 | corrected: returns a live alien, the leftmost live column and its highest live row |
| Waves.Wave.CheckLeftAsWritten | invaders/wave.py:442-457 | as written: the leftmost live column paired with the highest row holding any alien |
| Waves.Wave.ShipBolt | invaders/wave.py:281-306 | keeps exactly the bolts not out, moves them, and appends a player bolt at the ship with BOLT_SPEED exactly when fire is pressed, no explosion runs, the ship exists and no survivor is a player bolt; at most one player bolt stays in flight |
| Waves.Wave.Prune | invaders/wave.py:291-300 | the list becomes exactly the bolts not out, in order, each moved one step; add holds exactly when none of them is a player bolt; the list stays free of repeats and gains no player bolt |
| Waves.Wave.Shoot | invaders/wave.py:303-306 | a new bolt at the ship's x, SHIP_HEIGHT+SHIP_BOTTOM high, with velocity BOLT_SPEED, goes at the end of the list |
| Waves.Wave.AlienBolt | invaders/wave.py:309-341 | fires only when step equals blank, from the frontmost alien of a live column with velocity -BOLT_SPEED, then resets step to 0 and draws blank in [1, BOLT_RATE] |
| Waves.Wave.PickShooter | invaders/wave.py:318-336 | on a grid with an alien, the chosen column is live and the chosen row is its frontmost alien |
| Waves.Wave.DeleteAliens | invaders/wave.py:343-364 | the grid, bolts and score become those of the alien-hit pass |
| Waves.Wave.DeleteShip | invaders/wave.py:366-381 | with a ship, the skipping pass removes the bolts that hit it and sets detect on a hit; without one, detect is cleared |
| Waves.Wave.Animation | invaders/wave.py:383-402 | a running explosion advances by dt and, when over, removes the ship, clears the bolts, sets dead and takes one life; otherwise a detected hit starts an explosion |
| Waves.Wave.CheckLine | invaders/wave.py:404-424 | a breach sets win false, dead and lives 0; a cleared grid sets dead and win |
| Waves.Wave.SetDead | invaders/wave.py:127-134 | dead becomes the given flag |
| Waves.Wave.SetShip | invaders/wave.py:136-144 | a restart builds a new ship at GAME_WIDTH//2, SHIP_BOTTOM+SHIP_WIDTH//2 |
| Waves.Wave.ResumeGame | invaders/wave.py:229-235 | resuming a wave not won with a life left keeps the wave valid, clears dead and detect, and builds a new ship at the respawn point |

## Left out

- Drawing, sound, and the score and lives labels are not modelled. They only
  display state or play sounds: `draw`, the defense-line path, the
  `GLabel` texts, and `getSound().play()`.
- `invaders/app.py` is not modelled. It is the menu, pause and keyboard
  controller that calls the wave; the preconditions of `Update` and
  `ResumeGame` state how it calls them.
- The getters `getDead`, `getLives`, `getWin` and `getVelocity` are not
  separate members: the fields they return are public in the model.
- `game2d`'s image classes are not modelled. `contains` is the closed,
  axis-aligned box of the target's size, and an alien is only its centre.
- Random choices become nondeterministic choices within the `randint`
  bounds. These are the first and later firing thresholds in
  [1, BOLT_RATE] and the firing column.
- Time, `dt` and coordinates are reals, not floating point.
- The bolt list pruned in place becomes a new list. `_shipbolt`'s deletion
  inside the index loop is modelled by collecting the survivors in order,
  which gives the same list.
- The loops of `_deletealien`, `_checkline`, `_alienbolt` and `_movealien`
  run on the grid as a value. Aliens have no other references, so in-place
  updates to Alien objects are not modelled.
- Waves.Wave.Update: requires that the player is alive and that dt >= 0,
  and says nothing of the ship's x. Being alive under `Valid` also means
  that the wave is not won.
  - The game calls `update` only in its active state, and leaves that state
    as soon as the wave reports dead (invaders/app.py:170-173).
  - On an empty grid `_alienbolt` fails at
    `random.randint(0, len(shooter)-1)`, which is `randint(0, -1)`
    (invaders/wave.py:334).
  - On an empty grid `_movealien` reads `.x` of the `None` that
    `_checkright` and `_checkleft` return (invaders/wave.py:265-266, 440,
    457).
  - The frame time the game passes is never negative.
  - `Steer` states the ship's move.
- Waves.Wave.ResumeGame: requires at least one life left and a wave not
  won. The game resumes a paused wave only then (invaders/app.py:230-238).
- Waves.Wave.Shoot: states at most one player bolt afterwards rather than
  exactly one. The bolt's velocity is positive only under the
  configuration's assumptions, which `Shoot` does not require.
- Models.Ship.Animate: an index past the last frame is treated as the end of
  the explosion. The frame setter that raises in that case belongs to
  `game2d`, which is not modelled.
- The explosion coroutine is the `Animator` value `Idle | Exploding(ship,
  elapsed)`. Priming it with `next` is its start at elapsed time 0.

## Findings

| source | as written | input that shows it | evidently intended | confidence | as-written member | corrected member |
|---|---|---|---|---|---|---|
| invaders/wave.py:442-457 | `_checkleft` pairs the smallest live column with the row of the last live alien scanned, so the slot it returns can be empty and `_movealien` then reads `.x` of `None` | two rows, an alien at row 0 column 0 and one at row 1 column 1: it returns the empty slot (1, 0) | return a live alien in the leftmost live column, as `_checkright` does on the right | not executed | Waves.Wave.CheckLeftAsWritten, Formation.CheckLeftAsWrittenMisses | Waves.Wave.CheckLeft |
