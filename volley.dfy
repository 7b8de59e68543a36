/** The list of laser bolts in flight (`Wave._bolts` in invaders/wave.py) and
    the passes the wave makes over it each frame: pruning and moving
    (_shipbolt), the alien-hit pass (_deletealien) and the ship-hit pass
    (_deleteship).  Bolts are objects, so the functions here read their
    positions. */
module Volley {
  import opened Consts
  import opened Models
  import opened Formation

  /** No bolt object appears twice in the list. */
  predicate Distinct(bs: seq<Bolt>) {
    forall i, j :: 0 <= i < j < |bs| ==> bs[i] != bs[j]
  }

  /** Appending a bolt not already in the list keeps it free of repeats. */
  lemma DistinctAppend(bs: seq<Bolt>, x: Bolt)
    requires Distinct(bs) && x !in bs
    ensures Distinct(bs + [x])
  {
    var r := bs + [x];
    forall i, j | 0 <= i < j < |r| ensures r[i] != r[j] {
      if j == |bs| {
        assert r[i] == bs[i];
      }
    }
  }

  /** The bolts fired by the player, in list order. */
  function Players(bs: seq<Bolt>): seq<Bolt> {
    if bs == [] then []
    else Players(bs[..|bs| - 1]) + (if bs[|bs| - 1].IsPlayerBolt() then [bs[|bs| - 1]] else [])
  }

  /** The bolts fired by aliens, in list order. */
  function Enemies(bs: seq<Bolt>): seq<Bolt> {
    if bs == [] then []
    else Enemies(bs[..|bs| - 1]) + (if bs[|bs| - 1].IsPlayerBolt() then [] else [bs[|bs| - 1]])
  }

  function PlayerCount(bs: seq<Bolt>): nat {
    |Players(bs)|
  }

  lemma {:induction false} FiltersAppend(a: seq<Bolt>, b: seq<Bolt>)
    ensures Players(a + b) == Players(a) + Players(b)
    ensures Enemies(a + b) == Enemies(a) + Enemies(b)
    decreases |b|
  {
    if b != [] {
      var p := b[..|b| - 1];
      assert (a + b)[..|a + b| - 1] == a + p;
      assert (a + b)[|a + b| - 1] == b[|b| - 1];
      FiltersAppend(a, p);
    } else {
      assert a + b == a;
      assert Players(a) + [] == Players(a);
      assert Enemies(a) + [] == Enemies(a);
    }
  }

  /** bs with the element at index j taken out. */
  function RemoveAt(bs: seq<Bolt>, j: nat): (r: seq<Bolt>)
    requires j < |bs|
    ensures |r| == |bs| - 1
    ensures forall b :: b in r ==> b in bs
  {
    bs[..j] + bs[j + 1..]
  }

  /** Python's list.remove: drop the first element that is b (bolts are
      compared by identity), or nothing when b is absent. */
  function RemoveFirst(bs: seq<Bolt>, b: Bolt): (r: seq<Bolt>)
    ensures b in bs ==> |r| == |bs| - 1
    ensures b !in bs ==> r == bs
    ensures forall x :: x in r ==> x in bs
  {
    if bs == [] then []
    else if bs[0] == b then bs[1..]
    else [bs[0]] + RemoveFirst(bs[1..], b)
  }

  /** In a list without repeats, removing the bolt at index j by value
      removes exactly index j. */
  lemma {:induction false} RemoveFirstAt(bs: seq<Bolt>, j: nat)
    requires Distinct(bs) && j < |bs|
    ensures RemoveFirst(bs, bs[j]) == RemoveAt(bs, j)
    decreases j
  {
    if j > 0 {
      assert bs[0] != bs[j];
      var t := bs[1..];
      assert Distinct(t) by {
        forall i, k | 0 <= i < k < |t| ensures t[i] != t[k] {
          assert t[i] == bs[i + 1] && t[k] == bs[k + 1];
        }
      }
      RemoveFirstAt(t, j - 1);
      assert t[j - 1] == bs[j];
      assert [bs[0]] + (t[..j - 1] + t[j..]) == bs[..j] + bs[j + 1..];
    }
  }

  /** Removing one bolt keeps the rest free of repeats, and the removed
      bolt is gone. */
  lemma RemoveAtDistinct(bs: seq<Bolt>, j: nat)
    requires j < |bs| && Distinct(bs)
    ensures Distinct(RemoveAt(bs, j))
    ensures bs[j] !in RemoveAt(bs, j)
  {
    var r := RemoveAt(bs, j);
    forall i, k | 0 <= i < k < |r| ensures r[i] != r[k] {
      var i' := if i < j then i else i + 1;
      var k' := if k < j then k else k + 1;
      assert r[i] == bs[i'] && r[k] == bs[k'];
    }
    forall i | 0 <= i < |r| ensures r[i] != bs[j] {
      var i' := if i < j then i else i + 1;
      assert r[i] == bs[i'];
    }
  }

  lemma SingleFilters(x: Bolt)
    ensures Players([x]) == if x.IsPlayerBolt() then [x] else []
    ensures Enemies([x]) == if x.IsPlayerBolt() then [] else [x]
  {
    assert [x][..0] == [];
    assert Players([x]) == Players([]) + (if x.IsPlayerBolt() then [x] else []);
    assert Enemies([x]) == Enemies([]) + (if x.IsPlayerBolt() then [] else [x]);
  }

  /** A list with no player bolt has no player bolts to count. */
  lemma {:induction false} NoPlayers(bs: seq<Bolt>)
    requires forall b :: b in bs ==> !b.IsPlayerBolt()
    ensures Players(bs) == []
  {
    if bs != [] {
      NoPlayers(bs[..|bs| - 1]);
    }
  }

  /** Taking one bolt out of the middle of a list changes only the filter
      it belongs to. */
  lemma FiltersSplit(pre: seq<Bolt>, x: Bolt, post: seq<Bolt>)
    ensures x.IsPlayerBolt() ==> Enemies(pre + [x] + post) == Enemies(pre + post)
    ensures x.IsPlayerBolt() ==> PlayerCount(pre + [x] + post) == PlayerCount(pre + post) + 1
    ensures !x.IsPlayerBolt() ==> Players(pre + [x] + post) == Players(pre + post)
  {
    FiltersAppend(pre + [x], post);
    FiltersAppend(pre, [x]);
    FiltersAppend(pre, post);
    SingleFilters(x);
    if x.IsPlayerBolt() {
      assert Enemies(pre + [x]) == Enemies(pre);
    } else {
      assert Players(pre + [x]) == Players(pre);
    }
  }

  /** Removing one bolt changes only the filter it belongs to. */
  lemma RemoveAtFilters(bs: seq<Bolt>, j: nat)
    requires j < |bs|
    ensures bs[j].IsPlayerBolt() ==> Enemies(RemoveAt(bs, j)) == Enemies(bs)
    ensures bs[j].IsPlayerBolt() ==> PlayerCount(RemoveAt(bs, j)) + 1 == PlayerCount(bs)
    ensures !bs[j].IsPlayerBolt() ==> Players(RemoveAt(bs, j)) == Players(bs)
  {
    var pre, x, post := bs[..j], bs[j], bs[j + 1..];
    assert bs[j..] == [x] + post;
    assert bs == pre + bs[j..];
    assert pre + ([x] + post) == pre + [x] + post;
    FiltersSplit(pre, x, post);
  }

  // ---------------------------------------------------------------------
  // _shipbolt: prune, then move

  /** The heights of the bolts, in list order. */
  ghost function Heights(bs: seq<Bolt>): (ys: seq<real>)
    reads set b | b in bs
    ensures |ys| == |bs|
    ensures forall i :: 0 <= i < |bs| ==> ys[i] == bs[i].y
  {
    if bs == [] then []
    else Heights(bs[..|bs| - 1]) + [bs[|bs| - 1].y]
  }

  /** Which bolts are out when bolt i stands at height ys[i]. */
  function OutFlags(cfg: Config, ys: seq<real>): (out: seq<bool>)
    ensures |out| == |ys|
    ensures forall i :: 0 <= i < |ys| ==> out[i] == OutAt(cfg, ys[i])
  {
    if ys == [] then [] else OutFlags(cfg, ys[..|ys| - 1]) + [OutAt(cfg, ys[|ys| - 1])]
  }

  /** The bolts _shipbolt keeps, bs[i] being out when out[i]: those not
      out, in list order.  A bolt is tested before it moves, so one that
      leaves the screen this frame is only pruned in the next. */
  function Kept(bs: seq<Bolt>, out: seq<bool>): (ks: seq<Bolt>)
    requires |out| == |bs|
    ensures |ks| <= |bs|
  {
    if bs == [] then []
    else
      var n := |bs| - 1;
      Kept(bs[..n], out[..n]) + (if out[n] then [] else [bs[n]])
  }

  /** Looking at one more bolt extends the kept prefix by that bolt exactly
      when it is not out. */
  lemma KeptStep(bs: seq<Bolt>, out: seq<bool>, k: nat)
    requires |out| == |bs| && k < |bs|
    ensures Kept(bs[..k + 1], out[..k + 1]) == Kept(bs[..k], out[..k]) + (if out[k] then [] else [bs[k]])
  {
    assert bs[..k + 1][..k] == bs[..k];
    assert out[..k + 1][..k] == out[..k];
  }

  /** Pruning keeps exactly the bolts that are not out, and nothing else. */
  lemma {:induction false} KeptMembers(bs: seq<Bolt>, out: seq<bool>)
    requires |out| == |bs|
    ensures forall b :: b in Kept(bs, out) ==> b in bs
    ensures forall i :: 0 <= i < |bs| && !out[i] ==> bs[i] in Kept(bs, out)
  {
    if bs != [] {
      var n := |bs| - 1;
      KeptMembers(bs[..n], out[..n]);
      forall i | 0 <= i < n && !out[i] ensures bs[i] in Kept(bs, out) {
        assert bs[..n][i] == bs[i];
        assert out[..n][i] == out[i];
      }
    }
  }

  /** _shipbolt's loop over the bolts: a bolt that is out is dropped, any
      other moves one step of its velocity; `add` tells that no surviving
      bolt is the player's.  The survivors are collected into a new list
      rather than deleted from the old one in place. */
  method MoveBolts(cfg: Config, bs: seq<Bolt>) returns (keep: seq<Bolt>, add: bool)
    requires Distinct(bs)
    modifies set b | b in bs
    ensures keep == Kept(bs, OutFlags(cfg, old(Heights(bs))))
    ensures AllAdvanced(cfg, bs, old(Heights(bs)))
    ensures add <==> forall o :: o in keep ==> !o.IsPlayerBolt()
  {
    ghost var ys := Heights(bs);
    ghost var out := OutFlags(cfg, ys);
    keep := [];
    add := true;
    var i := 0;
    while i < |bs|
      invariant 0 <= i <= |bs|
      invariant keep == Kept(bs[..i], out[..i])
      invariant forall j :: 0 <= j < |bs| ==> bs[j].y == if j < i then Advanced(cfg, ys[j], bs[j].velocity) else ys[j]
      invariant add <==> forall o :: o in keep ==> !o.IsPlayerBolt()
    {
      KeptStep(bs, out, i);
      assert out[i] == OutAt(cfg, bs[i].y);
      var gone := StepBolt(cfg, bs[i]);
      if !gone {
        if bs[i].IsPlayerBolt() {
          add := false;
        }
        keep := keep + [bs[i]];
      }
      i := i + 1;
    }
    assert bs[..i] == bs && out[..i] == out;
    assert AllAdvanced(cfg, bs, ys);
  }

  /** One bolt's turn in _shipbolt's loop: a bolt that is out is reported
      gone and left where it is, any other moves one step. */
  method StepBolt(cfg: Config, b: Bolt) returns (gone: bool)
    modifies b`y
    ensures gone == OutAt(cfg, old(b.y))
    ensures b.y == Advanced(cfg, old(b.y), b.velocity)
  {
    gone := b.Out(cfg);
    if !gone {
      b.Move();
    }
  }

  /** Every bolt of bs stands where one pass of _shipbolt takes it from
      height ys[j]. */
  ghost predicate AllAdvanced(cfg: Config, bs: seq<Bolt>, ys: seq<real>)
    reads set b | b in bs
  {
    |ys| == |bs| && forall j :: 0 <= j < |bs| ==> bs[j].y == Advanced(cfg, ys[j], bs[j].velocity)
  }

  /** Pruning drops every bolt that is out (the list being free of repeats). */
  lemma {:induction false} KeptDropsOut(bs: seq<Bolt>, out: seq<bool>, i: nat)
    requires |out| == |bs| && Distinct(bs) && i < |bs| && out[i]
    ensures bs[i] !in Kept(bs, out)
  {
    var n := |bs| - 1;
    var p := bs[..n];
    KeptMembers(p, out[..n]);
    assert Distinct(p) by {
      forall j, k | 0 <= j < k < |p| ensures p[j] != p[k] {
        assert p[j] == bs[j] && p[k] == bs[k];
      }
    }
    if i < n {
      KeptDropsOut(p, out[..n], i);
      assert bs[i] != bs[n];
    } else {
      assert bs[i] !in p by {
        forall j | 0 <= j < |p| ensures p[j] != bs[i] {
          assert p[j] == bs[j];
        }
      }
    }
  }

  /** Pruning keeps the list free of repeats. */
  lemma {:induction false} KeptDistinct(bs: seq<Bolt>, out: seq<bool>)
    requires |out| == |bs| && Distinct(bs)
    ensures Distinct(Kept(bs, out))
  {
    if bs != [] {
      var n := |bs| - 1;
      var p := bs[..n];
      var last := bs[n];
      assert Distinct(p) by {
        forall i, k | 0 <= i < k < |p| ensures p[i] != p[k] {
          assert p[i] == bs[i] && p[k] == bs[k];
        }
      }
      KeptDistinct(p, out[..n]);
      KeptMembers(p, out[..n]);
      var kp := Kept(p, out[..n]);
      assert last !in p by {
        forall i | 0 <= i < |p| ensures p[i] != last {
          assert p[i] == bs[i];
        }
      }
      var ks := Kept(bs, out);
      forall i, k | 0 <= i < k < |ks| ensures ks[i] != ks[k] {
        if k >= |kp| {
          assert ks[i] in kp;
        }
      }
    }
  }

  /** Pruning never adds a player bolt. */
  lemma {:induction false} KeptPlayers(bs: seq<Bolt>, out: seq<bool>)
    requires |out| == |bs|
    ensures PlayerCount(Kept(bs, out)) <= PlayerCount(bs)
  {
    if bs != [] {
      var n := |bs| - 1;
      var p := bs[..n];
      var last := bs[n];
      KeptPlayers(p, out[..n]);
      var kp := Kept(p, out[..n]);
      assert bs == p + [last];
      FiltersAppend(p, [last]);
      SingleFilters(last);
      if out[n] {
        assert Kept(bs, out) == kp + [];
        assert kp + [] == kp;
      } else {
        assert Kept(bs, out) == kp + [last];
        FiltersAppend(kp, [last]);
      }
    }
  }

  /** After pruning and possibly firing, the player has at most one bolt in
      flight: a new one is added only when none survived. */
  lemma AtMostOnePlayerBolt(bs: seq<Bolt>, out: seq<bool>, fired: seq<Bolt>)
    requires |out| == |bs| && PlayerCount(bs) <= 1
    requires fired == [] || (|fired| == 1 && (forall b :: b in Kept(bs, out) ==> !b.IsPlayerBolt()))
    ensures PlayerCount(Kept(bs, out) + fired) <= 1
  {
    var ks := Kept(bs, out);
    KeptPlayers(bs, out);
    FiltersAppend(ks, fired);
    if fired != [] {
      NoPlayers(ks);
      assert fired[..0] == [];
    }
  }

  // ---------------------------------------------------------------------
  // _deletealien: the alien-hit pass

  /** The part of the wave _deletealien changes. */
  datatype HitState = HitState(grid: Grid, bolts: seq<Bolt>, score: int)

  /** The first bolt from index j on that hits alien a, or |bs|. */
  function FirstHit(cfg: Config, a: Alien, bs: seq<Bolt>, j: nat): (k: nat)
    requires j <= |bs|
    reads set b | b in bs
    ensures j <= k <= |bs|
    ensures k < |bs| ==> AlienCollides(cfg, a, bs[k])
    ensures forall m :: j <= m < k ==> !AlienCollides(cfg, a, bs[m])
    decreases |bs| - j
  {
    if j == |bs| then |bs|
    else if AlienCollides(cfg, a, bs[j]) then j
    else FirstHit(cfg, a, bs, j + 1)
  }

  /** Slot (i, a): a live alien hit by some player bolt is emptied, the
      first such bolt is removed, and the row's points are added. */
  function SlotStep(cfg: Config, st: HitState, i: nat, a: nat): (r: HitState)
    requires i < |st.grid| && a < |st.grid[i]|
    reads set b | b in st.bolts
    ensures forall b :: b in r.bolts ==> b in st.bolts
  {
    if st.grid[i][a].None? then st
    else
      var k := FirstHit(cfg, st.grid[i][a].value, st.bolts, 0);
      if k == |st.bolts| then st
      else HitState(Kill(st.grid, i, a), RemoveAt(st.bolts, k), st.score + Points(cfg, i))
  }

  /** The slots of row i before column n, in order. */
  function RowPass(cfg: Config, st: HitState, i: nat, n: nat): (r: HitState)
    requires i < |st.grid| && n <= |st.grid[i]|
    reads set b | b in st.bolts
    ensures SameShape(st.grid, r.grid)
    ensures forall b :: b in r.bolts ==> b in st.bolts
    decreases n
  {
    if n == 0 then st
    else
      var p := RowPass(cfg, st, i, n - 1);
      SlotStep(cfg, p, i, n - 1)
  }

  /** All slots of the rows before n, row by row. */
  function GridPass(cfg: Config, st: HitState, n: nat): (r: HitState)
    requires n <= |st.grid|
    reads set b | b in st.bolts
    ensures SameShape(st.grid, r.grid)
    ensures forall b :: b in r.bolts ==> b in st.bolts
    decreases n
  {
    if n == 0 then st
    else
      var p := GridPass(cfg, st, n - 1);
      RowPass(cfg, p, n - 1, |p.grid[n - 1]|)
  }

  /** One whole _deletealien pass. */
  function HitPass(cfg: Config, st: HitState): (r: HitState)
    reads set b | b in st.bolts
    ensures SameShape(st.grid, r.grid)
    ensures forall b :: b in r.bolts ==> b in st.bolts
  {
    GridPass(cfg, st, |st.grid|)
  }

  /** The loop of _deletealien over the rows. */
  method HitAll(cfg: Config, st: HitState) returns (r: HitState)
    requires Distinct(st.bolts)
    ensures r == HitPass(cfg, st)
    ensures Distinct(r.bolts)
  {
    r := st;
    var i := 0;
    while i < |st.grid|
      invariant 0 <= i <= |st.grid|
      invariant r == GridPass(cfg, st, i)
      invariant Distinct(r.bolts)
    {
      assert GridPass(cfg, st, i + 1) == RowPass(cfg, r, i, |r.grid[i]|);
      r := HitRow(cfg, r, i);
      i := i + 1;
    }
  }

  /** The loop of _deletealien over the slots of row i. */
  method HitRow(cfg: Config, st: HitState, i: nat) returns (r: HitState)
    requires i < |st.grid| && Distinct(st.bolts)
    ensures r == RowPass(cfg, st, i, |st.grid[i]|)
    ensures Distinct(r.bolts)
  {
    r := st;
    var a := 0;
    while a < |st.grid[i]|
      invariant 0 <= a <= |st.grid[i]|
      invariant r == RowPass(cfg, st, i, a)
      invariant Distinct(r.bolts)
    {
      r := HitSlot(cfg, r, i, a);
      assert r == RowPass(cfg, st, i, a + 1);
      a := a + 1;
    }
  }

  /** The loop of _deletealien over the bolts, for slot (i, a): the first
      player bolt that hits the alien is removed, the slot is emptied and the
      row's points are scored; once the slot is empty the later bolts are
      left alone. */
  method HitSlot(cfg: Config, st: HitState, i: nat, a: nat) returns (r: HitState)
    requires i < |st.grid| && a < |st.grid[i]| && Distinct(st.bolts)
    ensures r == SlotStep(cfg, st, i, a)
    ensures Distinct(r.bolts)
  {
    var g: Grid, bs: seq<Bolt>, sc: int := st.grid, st.bolts, st.score;
    if g[i][a].Some? {
      ghost var k := FirstHit(cfg, g[i][a].value, bs, 0);
      ghost var hit := false;
      var j := 0;
      while j < |bs|
        invariant 0 <= j && Distinct(bs)
        invariant SameShape(st.grid, g)
        invariant !hit ==> HitState(g, bs, sc) == st && j <= k && g[i][a].Some?
        invariant hit ==> HitState(g, bs, sc) == SlotStep(cfg, st, i, a) && g[i][a].None?
        decreases |bs| - j
      {
        if g[i][a].Some? {
          if AlienCollides(cfg, g[i][a].value, bs[j]) {
            assert k == j;
            assert SlotStep(cfg, st, i, a) == HitState(Kill(g, i, a), RemoveAt(bs, j), sc + Points(cfg, i));
            sc := sc + Points(cfg, i);
            g := g[i := g[i][a := None]];
            RemoveFirstAt(bs, j);
            RemoveAtDistinct(bs, j);
            bs := RemoveFirst(bs, bs[j]);
            hit := true;
          }
        }
        j := j + 1;
      }
    }
    r := HitState(g, bs, sc);
  }

  /** Only emptying: every slot still live afterwards was live before and
      holds the same alien. */
  ghost predicate EmptiesOnly(g: Grid, h: Grid) {
    SameShape(g, h) && forall i, j :: Live(h, i, j) ==> Live(g, i, j) && h[i][j] == g[i][j]
  }

  /** What the alien-hit pass keeps: the score plus what the remaining
      aliens are worth is unchanged, the score does not go down, the number
      of aliens killed equals the number of bolts removed, only player bolts
      are removed, and the list stays free of repeats. */
  ghost predicate Conserves(cfg: Config, st: HitState, r: HitState) {
    && EmptiesOnly(st.grid, r.grid)
    && r.score + Value(cfg, r.grid) == st.score + Value(cfg, st.grid)
    && r.score >= st.score
    && LiveCount(r.grid) + |st.bolts| == LiveCount(st.grid) + |r.bolts|
    && |r.bolts| <= |st.bolts|
    && PlayerCount(r.bolts) <= PlayerCount(st.bolts)
    && Enemies(r.bolts) == Enemies(st.bolts)
    && (forall b :: b in r.bolts ==> b in st.bolts)
    && (Distinct(st.bolts) ==> Distinct(r.bolts))
  }

  lemma ConservesTrans(cfg: Config, a: HitState, b: HitState, c: HitState)
    requires Conserves(cfg, a, b) && Conserves(cfg, b, c)
    ensures Conserves(cfg, a, c)
  {
  }

  lemma SlotStepConserves(cfg: Config, st: HitState, i: nat, a: nat)
    requires i < |st.grid| && a < |st.grid[i]| && |st.grid| <= cfg.alienRows
    ensures Conserves(cfg, st, SlotStep(cfg, st, i, a))
  {
    var r := SlotStep(cfg, st, i, a);
    if st.grid[i][a].Some? {
      var k := FirstHit(cfg, st.grid[i][a].value, st.bolts, 0);
      if k < |st.bolts| {
        KillDecrementsCount(st.grid, i, a);
        KillValue(cfg, st.grid, i, a);
        PointsByRow(cfg, i, i);
        RemoveAtFilters(st.bolts, k);
        if Distinct(st.bolts) {
          RemoveAtDistinct(st.bolts, k);
        }
      }
    }
  }

  lemma {:induction false} RowPassConserves(cfg: Config, st: HitState, i: nat, n: nat)
    requires i < |st.grid| && n <= |st.grid[i]| && |st.grid| <= cfg.alienRows
    ensures Conserves(cfg, st, RowPass(cfg, st, i, n))
    decreases n
  {
    if n > 0 {
      RowPassConserves(cfg, st, i, n - 1);
      SlotStepExtends(cfg, st, RowPass(cfg, st, i, n - 1), i, n - 1);
    }
  }

  /** What a pass has conserved so far stays conserved over one more slot. */
  lemma SlotStepExtends(cfg: Config, st: HitState, p: HitState, i: nat, a: nat)
    requires Conserves(cfg, st, p) && i < |p.grid| <= cfg.alienRows && a < |p.grid[i]|
    ensures Conserves(cfg, st, SlotStep(cfg, p, i, a))
  {
    SlotStepConserves(cfg, p, i, a);
    ConservesTrans(cfg, st, p, SlotStep(cfg, p, i, a));
  }

  lemma {:induction false} GridPassConserves(cfg: Config, st: HitState, n: nat)
    requires n <= |st.grid| && |st.grid| <= cfg.alienRows
    ensures Conserves(cfg, st, GridPass(cfg, st, n))
    decreases n
  {
    if n > 0 {
      GridPassConserves(cfg, st, n - 1);
      RowPassExtends(cfg, st, GridPass(cfg, st, n - 1), n - 1);
    }
  }

  /** What a pass has conserved so far stays conserved over one more row. */
  lemma RowPassExtends(cfg: Config, st: HitState, p: HitState, i: nat)
    requires Conserves(cfg, st, p) && i < |p.grid| <= cfg.alienRows
    ensures Conserves(cfg, st, RowPass(cfg, p, i, |p.grid[i]|))
  {
    RowPassConserves(cfg, p, i, |p.grid[i]|);
    ConservesTrans(cfg, st, p, RowPass(cfg, p, i, |p.grid[i]|));
  }

  /** The _deletealien pass never lowers the score, never adds an alien,
      kills exactly as many aliens as it removes bolts (each bolt kills at
      most one alien), removes only player bolts and keeps the score plus
      the value of the remaining aliens constant. */
  lemma HitPassConserves(cfg: Config, st: HitState)
    requires |st.grid| <= cfg.alienRows
    ensures Conserves(cfg, st, HitPass(cfg, st))
  {
    GridPassConserves(cfg, st, |st.grid|);
  }

  /** Emptying slots keeps the formation of the aliens that remain. */
  lemma EmptiesKeepFormation(cfg: Config, g: Grid, h: Grid, dx: real, dy: real)
    requires InFormation(cfg, g, dx, dy) && EmptiesOnly(g, h)
    ensures InFormation(cfg, h, dx, dy)
  {
    assert Width(h) == Width(g) by {
      if |g| > 0 { assert |h[0]| == |g[0]|; }
    }
  }

  /** A slot whose alien no player bolt touches keeps its alien. */
  lemma UntouchedSurvives(cfg: Config, st: HitState, i: nat, a: nat)
    requires i < |st.grid| && a < |st.grid[i]| && st.grid[i][a].Some?
    requires forall b :: b in st.bolts ==> !AlienCollides(cfg, st.grid[i][a].value, b)
    ensures SlotStep(cfg, st, i, a) == st
  {
    var k := FirstHit(cfg, st.grid[i][a].value, st.bolts, 0);
    if k < |st.bolts| {
      assert st.bolts[k] in st.bolts;
    }
  }

  // ---------------------------------------------------------------------
  // _deleteship: the ship-hit pass

  datatype ShipResult = ShipResult(bolts: seq<Bolt>, hit: bool)

  /** The `for b in self._bolts` loop of _deleteship from index j: a bolt
      that hits the ship is removed and the index still advances, so the
      bolt that moved into its place is not examined. */
  function ShipPass(cfg: Config, s: Ship, bs: seq<Bolt>, j: nat): (r: ShipResult)
    reads s, set b | b in bs
    ensures forall b :: b in r.bolts ==> b in bs
    decreases |bs| - j
  {
    if j >= |bs| then ShipResult(bs, false)
    else if s.Collides(cfg, bs[j]) then
      var r := ShipPass(cfg, s, RemoveAt(bs, j), j + 1);
      ShipResult(r.bolts, true)
    else ShipPass(cfg, s, bs, j + 1)
  }

  /** The ship is reported hit exactly when some bolt examined collides
      with it: the first colliding bolt is never skipped, since nothing
      before it was removed. */
  lemma {:induction false} ShipPassHitIff(cfg: Config, s: Ship, bs: seq<Bolt>, j: nat)
    ensures ShipPass(cfg, s, bs, j).hit <==> exists m :: j <= m < |bs| && s.Collides(cfg, bs[m])
    decreases |bs| - j
  {
    if j < |bs| && !s.Collides(cfg, bs[j]) {
      ShipPassHitIff(cfg, s, bs, j + 1);
      if exists m :: j <= m < |bs| && s.Collides(cfg, bs[m]) {
        var m :| j <= m < |bs| && s.Collides(cfg, bs[m]);
        assert m != j;
      }
    }
  }

  /** The ship pass removes only bolts that hit the ship (alien bolts): the
      player's bolts are all kept, in order, and the list stays free of
      repeats. */
  lemma {:induction false} ShipPassRemovesOnlyHits(cfg: Config, s: Ship, bs: seq<Bolt>, j: nat)
    requires Distinct(bs)
    ensures var r := ShipPass(cfg, s, bs, j);
            && Distinct(r.bolts)
            && Players(r.bolts) == Players(bs)
            && (forall b :: b in bs && b !in r.bolts ==> s.Collides(cfg, b))
            && |r.bolts| <= |bs|
    decreases |bs| - j
  {
    if j < |bs| {
      if s.Collides(cfg, bs[j]) {
        var t := RemoveAt(bs, j);
        RemoveAtFilters(bs, j);
        RemoveAtDistinct(bs, j);
        ShipPassRemovesOnlyHits(cfg, s, t, j + 1);
        var r := ShipPass(cfg, s, t, j + 1);
        forall b | b in bs && b !in r.bolts ensures s.Collides(cfg, b) {
          if b != bs[j] {
            var i :| 0 <= i < |bs| && bs[i] == b;
            assert b in t by {
              if i < j { assert t[i] == b; } else { assert i > j; assert t[i - 1] == b; }
            }
          }
        }
      } else {
        ShipPassRemovesOnlyHits(cfg, s, bs, j + 1);
      }
    }
  }

  /** The skip: when two consecutive bolts both hit the ship, only the first
      is removed in this pass. */
  lemma ShipPassSkipsNext(cfg: Config, s: Ship, b1: Bolt, b2: Bolt)
    requires s.Collides(cfg, b1) && s.Collides(cfg, b2)
    ensures ShipPass(cfg, s, [b1, b2], 0) == ShipResult([b2], true)
  {
    assert RemoveAt([b1, b2], 0) == [b2];
  }
}
