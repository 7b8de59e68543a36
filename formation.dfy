/** The wave's alien grid (`Wave._aliens` in invaders/wave.py): ALIEN_ROWS rows
    of ALIENS_IN_ROW slots, each a live alien or empty.  Row 0 is the lowest
    row, nearest the defense line.  This module holds the functions the wave's
    methods are specified by and the facts proved about them. */
module Formation {
  import opened Consts
  import opened Models

  type Grid = seq<seq<Option<Alien>>>

  function Width(g: Grid): nat {
    if |g| == 0 then 0 else |g[0]|
  }

  /** Every row has the same length. */
  predicate Rect(g: Grid) {
    forall r :: 0 <= r < |g| ==> |g[r]| == Width(g)
  }

  predicate Shaped(cfg: Config, g: Grid) {
    |g| == cfg.alienRows && Width(g) == cfg.aliensInRow && Rect(g)
  }

  predicate Live(g: Grid, r: int, c: int) {
    0 <= r < |g| && 0 <= c < |g[r]| && g[r][c].Some?
  }

  /** No alien is left. */
  ghost predicate Cleared(g: Grid) {
    forall r, c :: !Live(g, r, c)
  }

  /** Every slot holds an alien. */
  predicate Full(g: Grid) {
    forall r, c :: 0 <= r < |g| && 0 <= c < |g[r]| ==> Live(g, r, c)
  }

  predicate ColumnLive(g: Grid, c: int) {
    exists r :: 0 <= r < |g| && Live(g, r, c)
  }

  predicate RowLive(g: Grid, r: int) {
    0 <= r < |g| && exists c :: 0 <= c < |g[r]| && Live(g, r, c)
  }

  /** Same number of rows, and rows of the same lengths. */
  predicate SameShape(g: Grid, h: Grid) {
    |g| == |h| && forall i :: 0 <= i < |g| ==> |g[i]| == |h[i]|
  }

  /** The same slots are live in both grids. */
  ghost predicate SameLive(g: Grid, h: Grid) {
    SameShape(g, h) && forall i, j :: Live(g, i, j) <==> Live(h, i, j)
  }

  /** Empties slot (r, c). */
  function Kill(g: Grid, r: int, c: int): Grid
    requires 0 <= r < |g| && 0 <= c < |g[r]|
  {
    g[r := g[r][c := None]]
  }

  // ---------------------------------------------------------------------
  // Layout (_addalien)

  /** x of every alien in column c when the wave starts: (c+1)*(ALIEN_H_SEP+ALIEN_WIDTH). */
  function ColumnX(cfg: Config, c: int): real {
    ((c + 1) * (cfg.alienHSep + cfg.alienWidth)) as real
  }

  /** y of every alien in row r when the wave starts:
      GAME_HEIGHT-ALIEN_CEILING-(ALIEN_ROWS-r-1)*(ALIEN_V_SEP+ALIEN_HEIGHT). */
  function RowY(cfg: Config, r: int): real {
    (cfg.gameHeight - cfg.alienCeiling - (cfg.alienRows - r - 1) * (cfg.alienVSep + cfg.alienHeight)) as real
  }

  /** Columns go left to right and rows bottom to top: row 0 is the lowest,
      and the last row sits ALIEN_CEILING below the top of the screen. */
  lemma LayoutOrder(cfg: Config, c1: int, c2: int, r1: int, r2: int)
    requires cfg.alienHSep + cfg.alienWidth > 0 && cfg.alienVSep + cfg.alienHeight > 0
    ensures c1 < c2 ==> ColumnX(cfg, c1) < ColumnX(cfg, c2)
    ensures r1 < r2 ==> RowY(cfg, r1) < RowY(cfg, r2)
    ensures RowY(cfg, cfg.alienRows - 1) == (cfg.gameHeight - cfg.alienCeiling) as real
  {
    var k := cfg.alienHSep + cfg.alienWidth;
    var v := cfg.alienVSep + cfg.alienHeight;
    if c1 < c2 {
      assert (c2 + 1) * k == (c1 + 1) * k + (c2 - c1) * k;
      assert (c2 - c1) * k > 0;
    }
    if r1 < r2 {
      var R := cfg.alienRows;
      assert (R - r1 - 1) * v == (R - r2 - 1) * v + (r2 - r1) * v;
      assert (r2 - r1) * v > 0;
    }
  }

  /** Every live alien sits at its starting place displaced by (dx, -dy): its
      x depends only on its column and its y only on its row. */
  ghost predicate InFormation(cfg: Config, g: Grid, dx: real, dy: real) {
    Shaped(cfg, g) &&
    forall r, c :: Live(g, r, c) ==> g[r][c].value == Alien(ColumnX(cfg, c) + dx, RowY(cfg, r) - dy)
  }

  // ---------------------------------------------------------------------
  // March (_movealien)

  function ShiftSlot(s: Option<Alien>, dx: real, dy: real): Option<Alien> {
    match s
    case None => None
    case Some(a) => Some(Alien(a.x + dx, a.y + dy))
  }

  /** Every live alien moved by (dx, dy); empty slots stay empty. */
  function Shift(g: Grid, dx: real, dy: real): (h: Grid)
    ensures |h| == |g|
    ensures forall r :: 0 <= r < |g| ==> |h[r]| == |g[r]|
    ensures forall r, c :: 0 <= r < |g| && 0 <= c < |g[r]| ==> h[r][c] == ShiftSlot(g[r][c], dx, dy)
  {
    seq(|g|, r requires 0 <= r < |g| => seq(|g[r]|, c requires 0 <= c < |g[r]| => ShiftSlot(g[r][c], dx, dy)))
  }

  /** A shift moves the whole formation: the same slots stay live, and the
      displacement it adds is the one every live alien undergoes. */
  lemma ShiftKeepsFormation(cfg: Config, g: Grid, dx: real, dy: real, sx: real, sy: real)
    requires InFormation(cfg, g, dx, dy)
    ensures SameLive(g, Shift(g, sx, sy))
    ensures InFormation(cfg, Shift(g, sx, sy), dx + sx, dy - sy)
  {
    var h := Shift(g, sx, sy);
    assert Width(h) == Width(g) by {
      if |g| > 0 { assert |h[0]| == |g[0]|; }
    }
  }

  /** Largest live column below n, or -1 when there is none. */
  function LastLiveColBelow(g: Grid, n: int): (m: int)
    ensures -1 <= m && (n >= 0 ==> m < n) && (n < 0 ==> m == -1)
    ensures m >= 0 ==> ColumnLive(g, m)
    ensures forall c :: m < c < n ==> !ColumnLive(g, c)
    decreases n
  {
    if n <= 0 then -1
    else if ColumnLive(g, n - 1) then n - 1
    else LastLiveColBelow(g, n - 1)
  }

  /** Smallest live column from n up to `w`, or w when there is none. */
  function FirstLiveColFrom(g: Grid, n: int, w: int): (m: int)
    requires 0 <= n <= w
    ensures n <= m <= w
    ensures m < w ==> ColumnLive(g, m)
    ensures forall c :: n <= c < m ==> !ColumnLive(g, c)
    decreases w - n
  {
    if n == w then w
    else if ColumnLive(g, n) then n
    else FirstLiveColFrom(g, n + 1, w)
  }

  /** The rightmost column that still has an alien. */
  ghost function MaxLiveCol(g: Grid): (m: nat)
    requires Rect(g) && !Cleared(g)
    ensures m < Width(g) && ColumnLive(g, m)
    ensures forall c :: ColumnLive(g, c) ==> c <= m
  {
    var r, c :| Live(g, r, c);
    assert ColumnLive(g, c);
    LastLiveColBelow(g, Width(g))
  }

  /** The leftmost column that still has an alien. */
  ghost function MinLiveCol(g: Grid): (m: nat)
    requires Rect(g) && !Cleared(g)
    ensures m < Width(g) && ColumnLive(g, m)
    ensures forall c :: ColumnLive(g, c) ==> m <= c
  {
    var r, c :| Live(g, r, c);
    assert ColumnLive(g, c);
    FirstLiveColFrom(g, 0, Width(g))
  }

  /** Largest row below n holding an alien in column c, or -1. */
  function LastLiveRowIn(g: Grid, c: int, n: int): (m: int)
    ensures -1 <= m && (n >= 0 ==> m < n) && (n < 0 ==> m == -1)
    ensures m >= 0 ==> Live(g, m, c)
    ensures forall r :: m < r < n ==> !Live(g, r, c)
    decreases n
  {
    if n <= 0 then -1
    else if Live(g, n - 1, c) then n - 1
    else LastLiveRowIn(g, c, n - 1)
  }

  /** The highest row holding an alien in column c. */
  function TopRowIn(g: Grid, c: int): (m: nat)
    requires ColumnLive(g, c)
    ensures Live(g, m, c)
    ensures forall r :: m < r ==> !Live(g, r, c)
  {
    LastLiveRowIn(g, c, |g|)
  }

  /** Smallest row from n up holding an alien in column c, or |g|. */
  function FrontRowFrom(g: Grid, c: int, n: nat): (m: nat)
    requires n <= |g|
    ensures n <= m <= |g|
    ensures m < |g| ==> Live(g, m, c)
    ensures forall r :: n <= r < m ==> !Live(g, r, c)
    decreases |g| - n
  {
    if n == |g| then |g|
    else if Live(g, n, c) then n
    else FrontRowFrom(g, c, n + 1)
  }

  /** The frontmost alien of column c: the lowest row holding one. */
  function FrontRow(g: Grid, c: int): (m: nat)
    requires ColumnLive(g, c)
    ensures Live(g, m, c)
    ensures forall r :: 0 <= r < m ==> !Live(g, r, c)
  {
    FrontRowFrom(g, c, 0)
  }

  /** Largest row below n holding any alien, or -1. */
  function LastLiveRowBelow(g: Grid, n: int): (m: int)
    requires n <= |g|
    ensures -1 <= m && (n >= 0 ==> m < n) && (n < 0 ==> m == -1)
    ensures m >= 0 ==> RowLive(g, m)
    ensures forall r :: m < r < n ==> !RowLive(g, r)
    decreases n
  {
    if n <= 0 then -1
    else if RowLive(g, n - 1) then n - 1
    else LastLiveRowBelow(g, n - 1)
  }

  /** The highest row holding any alien. */
  ghost function LastLiveRow(g: Grid): (m: nat)
    requires !Cleared(g)
    ensures RowLive(g, m)
    ensures forall r :: m < r < |g| ==> !RowLive(g, r)
  {
    var r, c :| Live(g, r, c);
    assert RowLive(g, r);
    LastLiveRowBelow(g, |g|)
  }

  /** The x of the alien _checkright returns (the rightmost column, its
      highest live row). */
  ghost function RightEdgeX(g: Grid): real
    requires Rect(g) && !Cleared(g)
  {
    var c := MaxLiveCol(g);
    g[TopRowIn(g, c)][c].value.x
  }

  /** The x of the alien the corrected _checkleft returns (the leftmost
      column, its highest live row). */
  ghost function LeftEdgeX(g: Grid): real
    requires Rect(g) && !Cleared(g)
  {
    var c := MinLiveCol(g);
    g[TopRowIn(g, c)][c].value.x
  }

  /** The test _movealien makes: the formation keeps marching sideways when
      the gap between its outer alien and the screen edge it is walking
      towards exceeds ALIEN_H_SEP. */
  ghost predicate MarchesSideways(cfg: Config, g: Grid, dir: int)
    requires Rect(g) && !Cleared(g)
  {
    var right1 := cfg.gameWidth as real - (RightEdgeX(g) + (cfg.alienWidth / 2) as real);
    var left1 := LeftEdgeX(g) - (cfg.alienWidth / 2) as real;
    (dir == 1 && right1 > cfg.alienHSep as real) || (dir == -1 && left1 > cfg.alienHSep as real)
  }

  /** Because x depends only on the column, the march test reads off the
      formation: the outer aliens stand at the outermost live columns. */
  lemma MarchTestByColumns(cfg: Config, g: Grid, dx: real, dy: real, dir: int)
    requires InFormation(cfg, g, dx, dy) && !Cleared(g)
    ensures RightEdgeX(g) == ColumnX(cfg, MaxLiveCol(g)) + dx
    ensures LeftEdgeX(g) == ColumnX(cfg, MinLiveCol(g)) + dx
    ensures MarchesSideways(cfg, g, dir) <==>
              (dir == 1 && cfg.gameWidth as real - (ColumnX(cfg, MaxLiveCol(g)) + dx + (cfg.alienWidth / 2) as real) > cfg.alienHSep as real) ||
              (dir == -1 && ColumnX(cfg, MinLiveCol(g)) + dx - (cfg.alienWidth / 2) as real > cfg.alienHSep as real)
  {
  }

  /** Columns further right stand further right. */
  lemma ColumnXMonotone(cfg: Config, c1: int, c2: int)
    requires c1 <= c2
    ensures ColumnX(cfg, c1) <= ColumnX(cfg, c2)
  {
    var k := cfg.alienHSep + cfg.alienWidth;
    assert (c2 + 1) * k == (c1 + 1) * k + (c2 - c1) * k;
  }

  /** The arithmetic of one sideways step: an x between the two outer
      aliens' x moves by at most the gap the march test left. */
  lemma StepWithin(lo: real, x: real, hi: real, half: real, walk: real, sep: real, width: real, dir: int)
    requires lo <= x <= hi && 0.0 <= walk <= sep
    requires 0.0 < lo - half && hi + half < width
    requires (dir == 1 && width - (hi + half) > sep) || (dir == -1 && lo - half > sep)
    ensures 0.0 < x + dir as real * walk - half && x + dir as real * walk + half < width
  {
  }

  /** A sideways march does not push the formation off the screen when
      ALIEN_H_WALK is at most ALIEN_H_SEP: every live alien keeps its whole
      width strictly between 0 and GAME_WIDTH. */
  lemma SidewaysStaysOnScreen(cfg: Config, g: Grid, dx: real, dy: real, dir: int)
    requires InFormation(cfg, g, dx, dy) && !Cleared(g) && (dir == 1 || dir == -1)
    requires cfg.alienHWalk <= cfg.alienHSep
    requires 0.0 < LeftEdgeX(g) - (cfg.alienWidth / 2) as real
    requires RightEdgeX(g) + (cfg.alienWidth / 2) as real < cfg.gameWidth as real
    requires MarchesSideways(cfg, g, dir)
    ensures forall r, c :: Live(g, r, c) ==>
              0.0 < g[r][c].value.x + (dir * cfg.alienHWalk) as real - (cfg.alienWidth / 2) as real &&
              g[r][c].value.x + (dir * cfg.alienHWalk) as real + (cfg.alienWidth / 2) as real < cfg.gameWidth as real
  {
    MarchTestByColumns(cfg, g, dx, dy, dir);
    var lo := LeftEdgeX(g);
    var hi := RightEdgeX(g);
    var half := (cfg.alienWidth / 2) as real;
    forall r, c | Live(g, r, c)
      ensures 0.0 < g[r][c].value.x + (dir * cfg.alienHWalk) as real - half &&
              g[r][c].value.x + (dir * cfg.alienHWalk) as real + half < cfg.gameWidth as real
    {
      assert ColumnLive(g, c);
      ColumnXMonotone(cfg, MinLiveCol(g), c);
      ColumnXMonotone(cfg, c, MaxLiveCol(g));
      assert (dir * cfg.alienHWalk) as real == dir as real * cfg.alienHWalk as real;
      StepWithin(lo, g[r][c].value.x, hi, half, cfg.alienHWalk as real, cfg.alienHSep as real, cfg.gameWidth as real, dir);
    }
  }

  // ---------------------------------------------------------------------
  // Shooters (_alienbolt)

  /** The columns below n that still hold an alien, in increasing order. */
  function LiveColumns(g: Grid, n: int): (cs: seq<int>)
    ensures forall c :: c in cs <==> 0 <= c < n && ColumnLive(g, c)
    ensures forall i, j :: 0 <= i < j < |cs| ==> cs[i] < cs[j]
    decreases n
  {
    if n <= 0 then []
    else
      var p := LiveColumns(g, n - 1);
      assert forall i :: 0 <= i < |p| ==> p[i] in p;
      p + (if ColumnLive(g, n - 1) then [n - 1] else [])
  }

  /** The rows below n holding an alien in column c, in increasing order
      (the `keep` list of _alienbolt). */
  function LiveRowsIn(g: Grid, c: int, n: int): (rs: seq<int>)
    requires n <= |g|
    ensures forall r :: r in rs <==> 0 <= r < n && Live(g, r, c)
    decreases n
  {
    if n <= 0 then []
    else LiveRowsIn(g, c, n - 1) + (if Live(g, n - 1, c) then [n - 1] else [])
  }

  /** A column is live exactly when its `keep` list is not empty. */
  lemma LiveRowsNonEmptyIff(g: Grid, c: int)
    ensures |LiveRowsIn(g, c, |g|)| > 0 <==> ColumnLive(g, c)
  {
    var rs := LiveRowsIn(g, c, |g|);
    if |rs| > 0 {
      assert rs[0] in rs;
      assert Live(g, rs[0], c);
    }
    if ColumnLive(g, c) {
      var r :| 0 <= r < |g| && Live(g, r, c);
      assert r in rs;
    }
  }

  /** Python's min of a non-empty list. */
  function SeqMin(s: seq<int>): (m: int)
    requires |s| > 0
    ensures m in s && forall x :: x in s ==> m <= x
  {
    if |s| == 1 then s[0]
    else
      var rest := SeqMin(s[1..]);
      assert forall x :: x in s[1..] ==> x in s;
      assert forall x :: x in s ==> x == s[0] || x in s[1..];
      if s[0] <= rest then s[0] else rest
  }

  /** min(keep) is the frontmost alien of the column. */
  lemma MinLiveRowIsFront(g: Grid, c: int)
    requires ColumnLive(g, c)
    ensures |LiveRowsIn(g, c, |g|)| > 0
    ensures SeqMin(LiveRowsIn(g, c, |g|)) == FrontRow(g, c)
  {
    var rs := LiveRowsIn(g, c, |g|);
    assert FrontRow(g, c) in rs;
  }

  /** _alienbolt's column scan: the live columns, in order and each once
      (a column goes in when its count of live aliens is positive). */
  method Shooters(cfg: Config, g: Grid) returns (alist: seq<int>)
    requires Shaped(cfg, g)
    ensures alist == LiveColumns(g, cfg.aliensInRow)
  {
    alist := [];
    var c := 0;
    while c < cfg.aliensInRow
      invariant 0 <= c <= cfg.aliensInRow
      invariant alist == LiveColumns(g, c)
    {
      var flag := ColumnCount(cfg, g, c);
      LiveRowsNonEmptyIff(g, c);
      assert LiveColumns(g, c + 1) == alist + (if flag > 0 then [c] else []);
      assert c !in alist;
      if flag > 0 {
        if c !in alist {
          alist := alist + [c];
        }
      }
      c := c + 1;
    }
  }

  /** _alienbolt's count of the aliens in column c. */
  method ColumnCount(cfg: Config, g: Grid, c: int) returns (flag: nat)
    requires Shaped(cfg, g) && 0 <= c < cfg.aliensInRow
    ensures flag == |LiveRowsIn(g, c, |g|)|
  {
    flag := 0;
    var i := 0;
    while i < |g|
      invariant 0 <= i <= |g|
      invariant flag == |LiveRowsIn(g, c, i)|
    {
      assert Live(g, i, c) <==> g[i][c].Some?;
      assert LiveRowsIn(g, c, i + 1) == LiveRowsIn(g, c, i) + (if Live(g, i, c) then [i] else []);
      if g[i][c].Some? {
        flag := flag + 1;
      }
      i := i + 1;
    }
  }

  /** _alienbolt's `keep` list for column a: the rows holding an alien in
      it, in increasing order. */
  method KeepRows(cfg: Config, g: Grid, a: int) returns (keep: seq<int>)
    requires Shaped(cfg, g) && 0 <= a < cfg.aliensInRow
    ensures keep == LiveRowsIn(g, a, |g|)
  {
    keep := [];
    var r := 0;
    while r < |g|
      invariant 0 <= r <= |g|
      invariant keep == LiveRowsIn(g, a, r)
    {
      assert Live(g, r, a) <==> g[r][a].Some?;
      assert LiveRowsIn(g, a, r + 1) == keep + (if Live(g, r, a) then [r] else []);
      if g[r][a].Some? {
        keep := keep + [r];
      }
      r := r + 1;
    }
  }

  /** _alienbolt's row scan: for each live column, the lowest row holding
      an alien in it (the min of its `keep` list). */
  method FrontRows(cfg: Config, g: Grid, alist: seq<int>) returns (shooter: seq<int>)
    requires Shaped(cfg, g)
    requires forall k :: 0 <= k < |alist| ==> ColumnLive(g, alist[k])
    ensures |shooter| == |alist|
    ensures forall k :: 0 <= k < |alist| ==> shooter[k] == FrontRow(g, alist[k])
  {
    shooter := [];
    var k := 0;
    while k < |alist|
      invariant 0 <= k <= |alist| && |shooter| == k
      invariant forall m :: 0 <= m < k ==> shooter[m] == FrontRow(g, alist[m])
    {
      var a := alist[k];
      assert ColumnLive(g, a);
      var keep := KeepRows(cfg, g, a);
      MinLiveRowIsFront(g, a);
      shooter := shooter + [SeqMin(keep)];
      k := k + 1;
    }
  }

  // ---------------------------------------------------------------------
  // The scans of _checkright and _checkleft

  /** Slot (i, j) comes before position (r, a) in row-major order. */
  predicate Before(i: int, j: int, r: int, a: int) {
    i < r || (i == r && j < a)
  }

  /** What _checkright knows after scanning the slots before (r, a): once
      some alien was seen, (row, col) is live, col is the largest live column
      seen and row the last row seen holding an alien in col. */
  ghost predicate RightScan(g: Grid, r: int, a: int, found: bool, row: int, col: int) {
    && (found ==> Live(g, row, col) && row <= r)
    && (!found ==> row == 0 && col == 0)
    && (forall i, j :: Live(g, i, j) && Before(i, j, r, a) ==> found && j <= col)
    && (forall i :: Live(g, i, col) && Before(i, col, r, a) ==> i <= row)
  }

  /** The same for the corrected _checkleft, with the smallest column. */
  ghost predicate LeftScan(g: Grid, r: int, a: int, found: bool, row: int, col: int) {
    && (found ==> Live(g, row, col) && row <= r)
    && (!found ==> row == 0 && col == 0)
    && (forall i, j :: Live(g, i, j) && Before(i, j, r, a) ==> found && col <= j)
    && (forall i :: Live(g, i, col) && Before(i, col, r, a) ==> i <= row)
  }

  /** What the as-written _checkleft knows: mlist holds every live column
      seen, min1 is their minimum, and row is the row of the last alien
      seen (lastc being that alien's column). */
  ghost predicate AsWrittenScan(g: Grid, r: int, a: int, mlist: seq<int>, min1: int, row: int, lastc: int) {
    && (forall k :: 0 <= k < |mlist| ==> ColumnLive(g, mlist[k]))
    && (forall i, j :: Live(g, i, j) && Before(i, j, r, a) ==> j in mlist && i <= row)
    && (|mlist| > 0 ==> min1 == SeqMin(mlist) && Live(g, row, lastc))
    && (|mlist| == 0 ==> min1 == 0 && row == 0)
  }

  // ---------------------------------------------------------------------
  // The as-written _checkleft

  /** Finding: the leftmost alien _checkleft returns is the slot (highest row
      holding any alien, leftmost live column), which need not hold an alien;
      _movealien then reads the x of an empty slot.  Two rows, an alien at
      (0, 0) and one at (1, 1): the slot (1, 0) is empty. */
  lemma CheckLeftAsWrittenMisses()
    ensures var g: Grid := [[Some(Alien(1.0, 1.0)), None], [None, Some(Alien(2.0, 2.0))]];
            Rect(g) && !Cleared(g) && !Live(g, LastLiveRow(g), MinLiveCol(g))
  {
    var g: Grid := [[Some(Alien(1.0, 1.0)), None], [None, Some(Alien(2.0, 2.0))]];
    assert Live(g, 0, 0) && Live(g, 1, 1);
    assert ColumnLive(g, 0);
    assert RowLive(g, 1);
    assert MinLiveCol(g) == 0;
    assert LastLiveRow(g) == 1;
  }

  // ---------------------------------------------------------------------
  // Counting aliens

  function RowCount(row: seq<Option<Alien>>): (n: nat)
    ensures n <= |row|
  {
    if row == [] then 0
    else RowCount(row[..|row| - 1]) + (if row[|row| - 1].Some? then 1 else 0)
  }

  /** The number of live aliens in the first n rows. */
  function CountRows(g: Grid, n: nat): nat
    requires n <= |g|
  {
    if n == 0 then 0 else CountRows(g, n - 1) + RowCount(g[n - 1])
  }

  function LiveCount(g: Grid): nat {
    CountRows(g, |g|)
  }

  lemma {:induction false} RowCountZero(row: seq<Option<Alien>>)
    ensures RowCount(row) == 0 <==> forall c :: 0 <= c < |row| ==> row[c].None?
    ensures RowCount(row) == |row| <==> forall c :: 0 <= c < |row| ==> row[c].Some?
  {
    if row != [] {
      var p := row[..|row| - 1];
      RowCountZero(p);
      assert forall c :: 0 <= c < |p| ==> p[c] == row[c];
    }
  }

  lemma {:induction false} CountRowsZero(g: Grid, n: nat)
    requires n <= |g|
    ensures CountRows(g, n) == 0 <==> forall r, c :: 0 <= r < n && Live(g, r, c) ==> false
  {
    if n > 0 {
      CountRowsZero(g, n - 1);
      RowCountZero(g[n - 1]);
      var k := n - 1;
      var row := g[k];
      if RowCount(row) == 0 {
        forall c | 0 <= c < |row| ensures !Live(g, k, c) {
          assert row[c].None?;
        }
      } else {
        var c :| 0 <= c < |row| && !row[c].None?;
        assert Live(g, n - 1, c);
      }
    }
  }

  /** There are no aliens left exactly when none is counted. */
  lemma LiveCountZeroIffCleared(g: Grid)
    ensures LiveCount(g) == 0 <==> Cleared(g)
  {
    CountRowsZero(g, |g|);
  }

  lemma {:induction false} RowCountKill(row: seq<Option<Alien>>, c: int)
    requires 0 <= c < |row| && row[c].Some?
    ensures RowCount(row[c := None]) == RowCount(row) - 1
  {
    var k := row[c := None];
    if c < |row| - 1 {
      assert k[..|k| - 1] == row[..|row| - 1][c := None];
      RowCountKill(row[..|row| - 1], c);
    } else {
      assert k[..|k| - 1] == row[..|row| - 1];
    }
  }

  lemma {:induction false} CountRowsKill(g: Grid, r: int, c: int, n: nat)
    requires Live(g, r, c) && n <= |g|
    ensures CountRows(Kill(g, r, c), n) == CountRows(g, n) - (if r < n then 1 else 0)
  {
    if n > 0 {
      CountRowsKill(g, r, c, n - 1);
      if r == n - 1 {
        RowCountKill(g[r], c);
      }
    }
  }

  /** Emptying a live slot removes exactly one alien from the count. */
  lemma KillDecrementsCount(g: Grid, r: int, c: int)
    requires Live(g, r, c)
    ensures LiveCount(Kill(g, r, c)) == LiveCount(g) - 1
  {
    CountRowsKill(g, r, c, |g|);
  }

  lemma {:induction false} CountRowsFull(g: Grid, n: nat)
    requires Rect(g) && Full(g) && n <= |g|
    ensures CountRows(g, n) == n * Width(g)
  {
    if n > 0 {
      CountRowsFull(g, n - 1);
      RowCountZero(g[n - 1]);
      assert |g[n - 1]| == Width(g);
      var row := g[n - 1];
      forall c | 0 <= c < |row| ensures row[c].Some? {
        assert Live(g, n - 1, c);
      }
      assert (n - 1) * Width(g) + Width(g) == n * Width(g);
    }
  }

  /** A freshly built grid holds ALIEN_ROWS*ALIENS_IN_ROW aliens: emptying
      them one at a time reaches a cleared grid after exactly that many hits. */
  lemma FullCount(cfg: Config, g: Grid)
    requires Shaped(cfg, g) && Full(g)
    ensures LiveCount(g) == cfg.alienRows * cfg.aliensInRow
  {
    CountRowsFull(g, |g|);
  }

  lemma {:induction false} RowCountSame(a: seq<Option<Alien>>, b: seq<Option<Alien>>)
    requires |a| == |b| && forall c :: 0 <= c < |a| ==> (a[c].Some? <==> b[c].Some?)
    ensures RowCount(a) == RowCount(b)
  {
    if a != [] {
      var pa, pb := a[..|a| - 1], b[..|b| - 1];
      assert forall c :: 0 <= c < |pa| ==> pa[c] == a[c] && pb[c] == b[c];
      RowCountSame(pa, pb);
    }
  }

  lemma {:induction false} CountRowsSame(cfg: Config, g: Grid, h: Grid, n: nat)
    requires SameLive(g, h) && n <= |g|
    ensures CountRows(g, n) == CountRows(h, n)
    ensures ValueRows(cfg, g, n) == ValueRows(cfg, h, n)
  {
    if n > 0 {
      CountRowsSame(cfg, g, h, n - 1);
      var k := n - 1;
      forall c | 0 <= c < |g[k]| ensures g[k][c].Some? <==> h[k][c].Some? {
        assert Live(g, k, c) <==> Live(h, k, c);
      }
      RowCountSame(g[k], h[k]);
    }
  }

  /** Grids with the same live slots hold the same number of aliens, worth
      the same: marching changes neither. */
  lemma SameLiveSameCount(cfg: Config, g: Grid, h: Grid)
    requires SameLive(g, h)
    ensures LiveCount(g) == LiveCount(h) && Value(cfg, g) == Value(cfg, h)
  {
    CountRowsSame(cfg, g, h, |g|);
  }

  // ---------------------------------------------------------------------
  // Empty slots (_checkline's flag)

  function RowEmpties(row: seq<Option<Alien>>): (n: nat)
    ensures n <= |row|
  {
    if row == [] then 0
    else RowEmpties(row[..|row| - 1]) + (if row[|row| - 1].None? then 1 else 0)
  }

  function EmptyRows(g: Grid, n: nat): nat
    requires n <= |g|
  {
    if n == 0 then 0 else EmptyRows(g, n - 1) + RowEmpties(g[n - 1])
  }

  lemma {:induction false} RowEmptiesAll(row: seq<Option<Alien>>)
    ensures RowEmpties(row) == |row| <==> forall c :: 0 <= c < |row| ==> row[c].None?
  {
    if row != [] {
      var p := row[..|row| - 1];
      RowEmptiesAll(p);
      assert forall c :: 0 <= c < |p| ==> p[c] == row[c];
    }
  }

  lemma {:induction false} EmptyRowsAll(g: Grid, n: nat)
    requires Rect(g) && n <= |g|
    ensures EmptyRows(g, n) <= n * Width(g)
    ensures EmptyRows(g, n) == n * Width(g) <==> forall r, c :: 0 <= r < n && Live(g, r, c) ==> false
  {
    if n > 0 {
      EmptyRowsAll(g, n - 1);
      RowEmptiesAll(g[n - 1]);
      assert |g[n - 1]| == Width(g);
      var k := n - 1;
      var row := g[k];
      if RowEmpties(row) == Width(g) {
        forall c | 0 <= c < |row| ensures !Live(g, k, c) {
          assert row[c].None?;
        }
      } else {
        var c :| 0 <= c < |row| && !row[c].None?;
        assert Live(g, n - 1, c);
      }
      assert (n - 1) * Width(g) + Width(g) == n * Width(g);
    }
  }

  /** _checkline counts the empty slots; the count reaches
      ALIEN_ROWS*ALIENS_IN_ROW exactly when the grid is cleared. */
  lemma EmptiesFillGridIffCleared(cfg: Config, g: Grid)
    requires Shaped(cfg, g)
    ensures EmptyRows(g, |g|) == cfg.alienRows * cfg.aliensInRow <==> Cleared(g)
  {
    EmptyRowsAll(g, |g|);
  }

  // ---------------------------------------------------------------------
  // Defense line (_checkline)

  /** The alien's bottom edge is at or below the defense line. */
  predicate Breaches(cfg: Config, a: Alien) {
    a.y - (cfg.alienHeight / 2) as real <= cfg.defenseLine as real
  }

  /** Some live alien has crossed the defense line. */
  ghost predicate Breach(cfg: Config, g: Grid) {
    exists r, c :: Live(g, r, c) && Breaches(cfg, g[r][c].value)
  }

  /** The loops of _checkline: count the empty slots and look for an alien
      at or below the defense line. */
  method ScanLine(cfg: Config, g: Grid) returns (flag: nat, breach: bool)
    ensures flag == EmptyRows(g, |g|)
    ensures breach == Breach(cfg, g)
  {
    flag, breach := 0, false;
    var r := 0;
    while r < |g|
      invariant 0 <= r <= |g|
      invariant flag == EmptyRows(g, r)
      invariant breach <==> exists i, j :: Live(g, i, j) && i < r && Breaches(cfg, g[i][j].value)
    {
      var a := 0;
      while a < |g[r]|
        invariant 0 <= a <= |g[r]|
        invariant flag == EmptyRows(g, r) + RowEmpties(g[r][..a])
        invariant breach <==> exists i, j :: Live(g, i, j) && Before(i, j, r, a) && Breaches(cfg, g[i][j].value)
      {
        assert g[r][..a + 1][..a] == g[r][..a];
        if g[r][a].Some? {
          if g[r][a].value.y - (cfg.alienHeight / 2) as real <= cfg.defenseLine as real {
            assert Live(g, r, a);
            breach := true;
          }
        } else {
          flag := flag + 1;
        }
        a := a + 1;
      }
      assert g[r][..|g[r]|] == g[r];
      r := r + 1;
    }
  }

  /** A breach needs an alien, so it never happens on a cleared grid. */
  lemma BreachNeedsAlien(cfg: Config, g: Grid)
    ensures Breach(cfg, g) ==> !Cleared(g)
  {
  }

  // ---------------------------------------------------------------------
  // Score (_deletealien)

  /** Points for an alien in row i: ALIEN_POINTS*ALIEN_ROWS in row 0,
      ALIEN_POINTS*(ALIEN_ROWS-i) above it. */
  function Points(cfg: Config, i: int): int {
    if i == 0 then cfg.alienPoints * cfg.alienRows else cfg.alienPoints * (cfg.alienRows - i)
  }

  /** The row-0 special case is the general rule: a row i alien is worth
      ALIEN_POINTS*(ALIEN_ROWS-i); nothing on the grid is worth a negative
      amount, and lower rows are worth at least as much as higher ones. */
  lemma PointsByRow(cfg: Config, i: int, j: int)
    ensures Points(cfg, i) == cfg.alienPoints * (cfg.alienRows - i)
    ensures 0 <= i < cfg.alienRows ==> Points(cfg, i) >= 0
    ensures i <= j ==> Points(cfg, i) >= Points(cfg, j)
  {
    if i <= j {
      assert cfg.alienPoints * (cfg.alienRows - i) == cfg.alienPoints * (cfg.alienRows - j) + cfg.alienPoints * (j - i);
    }
    if 0 <= i < cfg.alienRows {
      assert cfg.alienPoints * (cfg.alienRows - i) >= 0;
    }
  }

  /** What the aliens in the first n rows are still worth. */
  function ValueRows(cfg: Config, g: Grid, n: nat): int
    requires n <= |g|
  {
    if n == 0 then 0 else ValueRows(cfg, g, n - 1) + Points(cfg, n - 1) * RowCount(g[n - 1])
  }

  function Value(cfg: Config, g: Grid): int {
    ValueRows(cfg, g, |g|)
  }

  /** Emptying one live slot of a row takes one alien's worth off the row. */
  lemma RowValueKill(p: int, row: seq<Option<Alien>>, c: int)
    requires 0 <= c < |row| && row[c].Some?
    ensures p * RowCount(row[c := None]) == p * RowCount(row) - p
  {
    RowCountKill(row, c);
    var k := RowCount(row);
    assert p * k == p * (k - 1) + p;
  }

  lemma {:induction false} ValueRowsKill(cfg: Config, g: Grid, r: int, c: int, n: nat)
    requires Live(g, r, c) && n <= |g|
    ensures ValueRows(cfg, Kill(g, r, c), n) == ValueRows(cfg, g, n) - (if r < n then Points(cfg, r) else 0)
  {
    if n > 0 {
      ValueRowsKill(cfg, g, r, c, n - 1);
      if r == n - 1 {
        RowValueKill(Points(cfg, r), g[r], c);
      } else {
        assert Kill(g, r, c)[n - 1] == g[n - 1];
      }
    }
  }

  /** Emptying the slot of a row r alien takes exactly that alien's points
      off what the grid is still worth. */
  lemma KillValue(cfg: Config, g: Grid, r: int, c: int)
    requires Live(g, r, c)
    ensures Value(cfg, Kill(g, r, c)) == Value(cfg, g) - Points(cfg, r)
  {
    ValueRowsKill(cfg, g, r, c, |g|);
  }
}
