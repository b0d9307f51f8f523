/**
  The arena: hogs addressed by index, each tile holding the ordered list of the
  hogs standing on it (`Tile.hogs`), plus the hog operations that change
  positions (`Hog.move`) and the road-based heading choice (`Hog.going`).
*/
module World {
  import opened Wrappers
  import opened Grid
  import opened Goods
  import opened Lists

  type HogId = nat
  type FacId = nat

  /**
    A hog.  `hasStepped`, `isWaiting` and `hoppedFrom` are per-tick; `looped`
    and `stuck` persist until the board is edited.  `holding` is the carried
    good (`false` is `None`) and `prefs` the facilities it still means to visit
    (`interact_preferences`, each entry a facility or `false`).
  */
  datatype Hog = Hog(
    tile: Tile,
    dir: Dir,
    hasStepped: bool,
    isWaiting: bool,
    looped: bool,
    stuck: bool,
    hoppedFrom: Option<Tile>,
    holding: Option<Good>,
    prefs: seq<Option<FacId>>)

  datatype World = World(board: Board, hogs: seq<Hog>, occ: seq<seq<HogId>>) {

    /**
      Every hog stands on a board tile and appears exactly once, in the list of
      that tile and of no other; the lists hold nothing but hogs.
    */
    ghost predicate Valid() {
      && board.Valid()
      && |occ| == board.Size()
      && (forall i :: 0 <= i < |hogs| ==> board.IsTile(hogs[i].tile))
      && (forall t, x :: 0 <= t < |occ| && x in occ[t] ==> x < |hogs|)
      && (forall t, i :: 0 <= t < |occ| && 0 <= i < |hogs| ==>
            multiset(occ[t])[i] == if hogs[i].tile == t then 1 else 0)
    }

    predicate IsHog(h: int) {
      0 <= h < |hogs|
    }
  }

  /** A valid arena lists each hog on its own tile. */
  lemma OnItsTile(w: World, h: HogId)
    requires w.Valid() && w.IsHog(h)
    ensures h in w.occ[w.hogs[h].tile]
  {
    assert multiset(w.occ[w.hogs[h].tile])[h] == 1;
  }

  /** ... and on no other tile. */
  lemma OnlyOnItsTile(w: World, h: HogId, t: Tile)
    requires w.Valid() && w.IsHog(h) && t < |w.occ|
    requires h in w.occ[t]
    ensures t == w.hogs[h].tile
  {
    assert multiset(w.occ[t])[h] > 0;
  }

  /** Replaces a hog by one standing on the same tile; the lists are untouched. */
  function SetHog(w: World, h: HogId, hog: Hog): (r: World)
    requires w.Valid() && w.IsHog(h) && hog.tile == w.hogs[h].tile
    ensures r.Valid() && r.board == w.board && r.occ == w.occ && |r.hogs| == |w.hogs|
    ensures r.hogs[h] == hog
    ensures forall i :: 0 <= i < |w.hogs| && i != h ==> r.hogs[i] == w.hogs[i]
  {
    w.(hogs := w.hogs[h := hog])
  }

  function SetStepped(w: World, h: HogId): (r: World)
    requires w.Valid() && w.IsHog(h)
    ensures r.Valid()
  {
    SetHog(w, h, w.hogs[h].(hasStepped := true))
  }

  function SetStuck(w: World, h: HogId): (r: World)
    requires w.Valid() && w.IsHog(h)
    ensures r.Valid()
  {
    SetHog(w, h, w.hogs[h].(stuck := true, hasStepped := true))
  }

  function SetLooped(w: World, h: HogId): (r: World)
    requires w.Valid() && w.IsHog(h)
    ensures r.Valid()
  {
    SetHog(w, h, w.hogs[h].(looped := true))
  }

  function SetWaiting(w: World, h: HogId, waiting: bool): (r: World)
    requires w.Valid() && w.IsHog(h)
    ensures r.Valid()
  {
    SetHog(w, h, w.hogs[h].(isWaiting := waiting))
  }

  /**
    `Hog.going()`: straight on if the tile ahead is road, else turn right, else
    turn left; `None` is the empty string (no way forward).
  */
  function Going(b: Board, t: Tile, d: Dir): (r: Option<Dir>)
    requires b.Valid() && b.IsTile(t)
    ensures r == Some(d) <==> b.road[Neighbor(b, t, d)]
    ensures r == Some(Right(d)) <==> !b.road[Neighbor(b, t, d)] && b.road[Neighbor(b, t, Right(d))]
    ensures r == Some(Left(d)) <==>
              !b.road[Neighbor(b, t, d)] && !b.road[Neighbor(b, t, Right(d))] && b.road[Neighbor(b, t, Left(d))]
    ensures r.None? <==>
              !b.road[Neighbor(b, t, d)] && !b.road[Neighbor(b, t, Right(d))] && !b.road[Neighbor(b, t, Left(d))]
    ensures r != Some(Back(d))
  {
    if b.road[Neighbor(b, t, d)] then Some(d)
    else if b.road[Neighbor(b, t, Right(d))] then Some(Right(d))
    else if b.road[Neighbor(b, t, Left(d))] then Some(Left(d))
    else None
  }

  /** `hog.going()` for a hog of the arena. */
  function GoingOf(w: World, h: HogId): Option<Dir>
    requires w.Valid() && w.IsHog(h)
  {
    Going(w.board, w.hogs[h].tile, w.hogs[h].dir)
  }

  /** Where a hog on `t` facing `d` ends up after `move()`. */
  function MoveTarget(b: Board, t: Tile, d: Dir): (r: Tile)
    requires b.Valid() && b.IsTile(t)
    ensures b.IsTile(r)
    ensures Going(b, t, d).None? ==> r == t
    ensures Going(b, t, d).Some? ==> r == Neighbor(b, t, Going(b, t, d).value)
  {
    match Going(b, t, d)
    case None => t
    case Some(g) => Neighbor(b, t, g)
  }

  /** The heading a hog on `t` facing `d` has after `move()`. */
  function MoveHeading(b: Board, t: Tile, d: Dir): Dir
    requires b.Valid() && b.IsTile(t)
  {
    match Going(b, t, d)
    case None => d
    case Some(g) => g
  }

  /**
    `Hog.move()`: with no way forward nothing changes; otherwise the hog leaves
    its tile's list, is appended to the list of the tile it steps onto, takes the
    new heading and records the tile it hopped from.  Every other hog and every
    other list is unchanged.
  */
  function Move(w: World, h: HogId): (r: World)
    requires w.Valid() && w.IsHog(h)
    ensures r.Valid() && r.board == w.board && |r.hogs| == |w.hogs|
    ensures GoingOf(w, h).None? ==> r == w
    ensures GoingOf(w, h).Some? ==>
              var from := w.hogs[h].tile;
              var to := Neighbor(w.board, from, GoingOf(w, h).value);
              && r.hogs[h] == w.hogs[h].(tile := to, dir := GoingOf(w, h).value, hoppedFrom := Some(from))
              && r.occ[to] == Remove(w.occ[to], h) + [h]
              && (to != from ==> r.occ[from] == Remove(w.occ[from], h) && h !in r.occ[from])
              && (forall t :: 0 <= t < |w.occ| && t != from && t != to ==> r.occ[t] == w.occ[t])
    ensures forall i :: 0 <= i < |w.hogs| && i != h ==> r.hogs[i] == w.hogs[i]
  {
    match GoingOf(w, h)
    case None => w
    case Some(g) =>
      var from := w.hogs[h].tile;
      var to := Neighbor(w.board, from, g);
      var occ1 := w.occ[from := Remove(w.occ[from], h)];
      var occ2 := occ1[to := occ1[to] + [h]];
      var hogs' := w.hogs[h := w.hogs[h].(tile := to, dir := g, hoppedFrom := Some(from))];
      var r := World(w.board, hogs', occ2);
      MovePreservesValid(w, h, r, from, to);
      r
  }

  lemma MovePreservesValid(w: World, h: HogId, r: World, from: Tile, to: Tile)
    requires w.Valid() && w.IsHog(h)
    requires from == w.hogs[h].tile && w.board.IsTile(to)
    requires r.board == w.board
    requires |r.hogs| == |w.hogs| && r.hogs == w.hogs[h := r.hogs[h]] && r.hogs[h].tile == to
    requires r.occ == w.occ[from := Remove(w.occ[from], h)][to := w.occ[from := Remove(w.occ[from], h)][to] + [h]]
    ensures r.Valid()
  {
    OnItsTile(w, h);
    var occ1 := w.occ[from := Remove(w.occ[from], h)];
    forall t, i | 0 <= t < |r.occ| && 0 <= i < |r.hogs|
      ensures multiset(r.occ[t])[i] == if r.hogs[i].tile == t then 1 else 0
    {
      if t == to {
        assert multiset(r.occ[t]) == multiset(occ1[t]) + multiset{h};
      }
    }
  }

  /** Every hog of the arena, tile by tile (`Board.hogs`). */
  function AllHogs(occ: seq<seq<HogId>>): (r: seq<HogId>)
    ensures forall t, x :: 0 <= t < |occ| && x in occ[t] ==> x in r
    ensures forall x :: x in r ==> exists t :: 0 <= t < |occ| && x in occ[t]
  {
    if |occ| == 0 then []
    else
      var rest := AllHogs(occ[1..]);
      assert forall t, x :: 1 <= t < |occ| && x in occ[t] ==> x in occ[1..][t - 1];
      occ[0] + rest
  }

  /** `Board.hogs` of a valid arena lists every hog, and nothing else. */
  lemma AllHogsComplete(w: World)
    requires w.Valid()
    ensures forall h :: 0 <= h < |w.hogs| ==> h in AllHogs(w.occ)
    ensures forall x :: x in AllHogs(w.occ) ==> w.IsHog(x)
  {
    forall h | 0 <= h < |w.hogs|
      ensures h in AllHogs(w.occ)
    {
      OnItsTile(w, h);
    }
  }
}
