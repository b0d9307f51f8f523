/**
  The per-tick movement resolver: `Hog.following`, `going_to_t`,
  `hog_competing_for_t`, the recursive `Hog.step` and `Board.step`'s movement
  phase.  The same algorithm is `Flan.step` and its helpers in the monolith.
*/
module Movement {
  import opened Wrappers
  import opened Grid
  import opened Lists
  import opened World

  /** Ways a resolution can fail to reach a result. */
  datatype StepError =
    | OutOfFuel       // the recursion went deeper than the fuel allows
    | EndlessWalk     // the loop-marking walk cycles without reaching the hog that started it
    | WalkFellOff     // the walk met a hog following nobody: assigning `false.looped` throws in strict mode
    | DetachedProbe   // the junction competitor found is the probe hog itself (a board one tile wide or high)

  /** The hogs of a list, in order, are all hogs of the arena. */
  ghost predicate HogList(w: World, list: seq<HogId>)
  {
    forall x :: x in list ==> w.IsHog(x)
  }

  /** `Tile.hog_going(direction)` over a list: the first hog whose `going()` is `g`. */
  function FirstGoing(w: World, list: seq<HogId>, g: Option<Dir>): (r: Option<HogId>)
    requires w.Valid() && HogList(w, list)
    ensures r.None? <==> forall x :: x in list ==> GoingOf(w, x) != g
    ensures r.Some? ==> r.value in list && GoingOf(w, r.value) == g
    ensures r.Some? ==> forall j :: 0 <= j < IndexOf(list, r.value) ==> GoingOf(w, list[j]) != g
  {
    if |list| == 0 then None
    else if GoingOf(w, list[0]) == g then Some(list[0])
    else
      var r := FirstGoing(w, list[1..], g);
      if r.Some? then
        assert IndexOf(list, r.value) == IndexOf(list[1..], r.value) + 1;
        assert forall j :: 0 <= j < IndexOf(list, r.value) ==> GoingOf(w, list[j]) != g by {
          forall j | 0 <= j < IndexOf(list, r.value) ensures GoingOf(w, list[j]) != g {
            if j > 0 {
              assert list[j] == list[1..][j - 1];
            }
          }
        }
        r
      else r
  }

  /** Position `k` of `list` holds the first hog whose `going()` is `g`. */
  ghost predicate FirstGoingAt(w: World, list: seq<HogId>, g: Option<Dir>, k: nat)
    requires w.Valid() && HogList(w, list)
  {
    k < |list| && GoingOf(w, list[k]) == g && forall j :: 0 <= j < k ==> GoingOf(w, list[j]) != g
  }

  /** `FirstGoing` finds the first matching position of the list. */
  lemma FirstGoingIsFirst(w: World, list: seq<HogId>, g: Option<Dir>, k: nat)
    requires w.Valid() && HogList(w, list) && FirstGoingAt(w, list, g, k)
    ensures FirstGoing(w, list, g) == Some(list[k])
  {
    assert list[k] in list;
    var c := FirstGoing(w, list, g).value;
    var i := IndexOf(list, c);
    if k != i {
      assert false;
    }
  }

  /** `tile.hog_going(direction)`: the first hog standing on `t` whose `going()` is `g`, if any. */
  function HogGoing(w: World, t: Tile, g: Option<Dir>): (r: Option<HogId>)
    requires w.Valid() && w.board.IsTile(t)
    ensures r.None? <==> forall x :: x in w.occ[t] ==> GoingOf(w, x) != g
    ensures r.Some? ==> r.value in w.occ[t] && GoingOf(w, r.value) == g
    ensures r.Some? ==> FirstGoingAt(w, w.occ[t], g, IndexOf(w.occ[t], r.value))
  {
    FirstGoing(w, w.occ[t], g)
  }

  /** The tile the probe hog of `following()` stands on after its `move()`. */
  function ProbeTile(w: World, h: HogId): (t: Tile)
    requires w.Valid() && w.IsHog(h)
    ensures w.board.IsTile(t)
  {
    MoveTarget(w.board, w.hogs[h].tile, w.hogs[h].dir)
  }

  /** The probe's heading after its `move()`. */
  function ProbeDir(w: World, h: HogId): Dir
    requires w.Valid() && w.IsHog(h)
  {
    MoveHeading(w.board, w.hogs[h].tile, w.hogs[h].dir)
  }

  /**
    The list operations a probe performs: `new Hog(tile, direction)` pushes it on
    the hog's tile, `move()` takes it off and pushes it on its target, and
    `deconstruct()` takes it off again.  The probe's index is one no hog has.
    Every list ends up as it was.
  */
  function ProbeVisit(w: World, h: HogId): (r: seq<seq<HogId>>)
    requires w.Valid() && w.IsHog(h)
    ensures r == w.occ
  {
    var t, pt := w.hogs[h].tile, ProbeTile(w, h);
    assert |w.hogs| !in w.occ[t] && |w.hogs| !in w.occ[pt];
    ProbeLists(w.occ, t, pt, |w.hogs|, GoingOf(w, h).Some?)
  }

  /** Appending the probe to a tile's list and removing it again restores every list. */
  lemma PushThenRemove(occ: seq<seq<HogId>>, t: nat, p: HogId)
    requires t < |occ| && p !in occ[t]
    ensures occ[t := occ[t] + [p]][t := Remove(occ[t] + [p], p)] == occ
  {
    RemoveAppended(occ[t], p);
  }

  /** The list operations of `ProbeVisit` for probe `p` starting on `t` and, if it `moves`, stepping to `pt`. */
  function ProbeLists(occ: seq<seq<HogId>>, t: nat, pt: nat, p: HogId, moves: bool): (r: seq<seq<HogId>>)
    requires t < |occ| && pt < |occ| && p !in occ[t] && p !in occ[pt]
    requires !moves ==> pt == t
    ensures r == occ
  {
    var pushed := occ[t := occ[t] + [p]];
    var lifted := pushed[t := Remove(pushed[t], p)];
    PushThenRemove(occ, t, p);
    var moved := if moves then lifted[pt := lifted[pt] + [p]] else pushed;
    var dropped := moved[pt := Remove(moved[pt], p)];
    PushThenRemove(occ, pt, p);
    dropped
  }

  /**
    `Hog.following()`: the hog on the probe's tile whose `going()` equals the
    probe's own `going()` there.  The probe has already left every list when the
    scan runs (see `ProbeVisit`).
  */
  function Following(w: World, h: HogId): (r: Option<HogId>)
    requires w.Valid() && w.IsHog(h)
    ensures r.Some? ==> && w.IsHog(r.value)
                        && w.hogs[r.value].tile == ProbeTile(w, h)
                        && GoingOf(w, r.value) == Going(w.board, ProbeTile(w, h), ProbeDir(w, h))
    ensures r.None? <==> forall x :: 0 <= x < |w.hogs| && w.hogs[x].tile == ProbeTile(w, h) ==>
                           GoingOf(w, x) != Going(w.board, ProbeTile(w, h), ProbeDir(w, h))
    ensures r.Some? ==> FirstGoingAt(w, w.occ[ProbeTile(w, h)], Going(w.board, ProbeTile(w, h), ProbeDir(w, h)),
                                     IndexOf(w.occ[ProbeTile(w, h)], r.value))
  {
    var pt := ProbeTile(w, h);
    var r := FirstGoing(w, w.occ[pt], Going(w.board, pt, ProbeDir(w, h)));
    if r.Some? then
      OnlyOnItsTile(w, r.value, pt);
      r
    else
      forall x | 0 <= x < |w.hogs| && w.hogs[x].tile == pt
        ensures x in w.occ[pt]
      {
        OnItsTile(w, x);
      }
      r
  }

  /**
    `Hog.going_to_t()`: the probe did leave the hog's tile, and from there the
    road does not continue straight but does continue both right and left.
  */
  function GoingToT(w: World, h: HogId): (r: bool)
    requires w.Valid() && w.IsHog(h)
    ensures r <==> && ProbeTile(w, h) != w.hogs[h].tile
                   && Going(w.board, ProbeTile(w, h), ProbeDir(w, h)) == Some(Right(ProbeDir(w, h)))
                   && w.board.road[LeftOfProbe(w, h)]
  {
    var b, pt, pd := w.board, ProbeTile(w, h), ProbeDir(w, h);
    if pt == w.hogs[h].tile then false
    else !b.road[Neighbor(b, pt, pd)] && b.road[Neighbor(b, pt, Right(pd))] && b.road[Neighbor(b, pt, Left(pd))]
  }

  /** The tile to the left of the probe: where `hog_competing_for_t` looks for a competitor. */
  function LeftOfProbe(w: World, h: HogId): (t: Tile)
    requires w.Valid() && w.IsHog(h)
    ensures w.board.IsTile(t) && t < |w.occ|
  {
    Neighbor(w.board, ProbeTile(w, h), Left(ProbeDir(w, h)))
  }

  /** What `hog_competing_for_t()` returns. */
  datatype Competitor = NoCompetitor | Rival(id: HogId) | ProbeRival

  /**
    `Hog.hog_competing_for_t()`: at a T junction, the first hog on the tile to the
    probe's left whose `going()` is the probe's right turn, unless it has already
    stepped.  The probe is still on its own tile during this scan, so when that
    left tile is the probe's tile the probe itself comes last in the list.
  */
  function HogCompetingForT(w: World, h: HogId): (r: Competitor)
    requires w.Valid() && w.IsHog(h)
    ensures r.Rival? ==> w.IsHog(r.id) && !w.hogs[r.id].hasStepped
    ensures r.Rival? ==> GoingToT(w, h) && GoingOf(w, r.id) == Some(Right(ProbeDir(w, h)))
    ensures r.Rival? ==> r.id in w.occ[LeftOfProbe(w, h)]
    ensures !GoingToT(w, h) ==> r == NoCompetitor
  {
    if !GoingToT(w, h) then NoCompetitor
    else
      var pt, pd := ProbeTile(w, h), ProbeDir(w, h);
      var lt := LeftOfProbe(w, h);
      match HogGoing(w, lt, Some(Right(pd)))
      case Some(c) => if w.hogs[c].hasStepped then NoCompetitor else Rival(c)
      case None => if lt == pt then ProbeRival else NoCompetitor
  }

  /**
    At a T junction the first hog on the probe's left tile going the probe's
    right turn decides: it is the competitor unless it has already stepped,
    and the hogs after it are never looked at.  With no such hog there is no
    competitor (or the probe itself, when the left tile is its own).
  */
  lemma CompetitorIsFirst(w: World, h: HogId, k: nat)
    requires w.Valid() && w.IsHog(h) && GoingToT(w, h)
    requires FirstGoingAt(w, w.occ[LeftOfProbe(w, h)], Some(Right(ProbeDir(w, h))), k)
    ensures var c := w.occ[LeftOfProbe(w, h)][k];
            w.IsHog(c) && HogCompetingForT(w, h) == if w.hogs[c].hasStepped then NoCompetitor else Rival(c)
  {
    var lt := LeftOfProbe(w, h);
    FirstGoingIsFirst(w, w.occ[lt], Some(Right(ProbeDir(w, h))), k);
    assert w.occ[lt][k] in w.occ[lt];
  }

  /** ... and with no hog there going that way, nobody competes but possibly the probe. */
  lemma NoCompetitorWithoutMatch(w: World, h: HogId)
    requires w.Valid() && w.IsHog(h) && GoingToT(w, h)
    requires forall x :: x in w.occ[LeftOfProbe(w, h)] ==> GoingOf(w, x) != Some(Right(ProbeDir(w, h)))
    ensures HogCompetingForT(w, h) == if LeftOfProbe(w, h) == ProbeTile(w, h) then ProbeRival else NoCompetitor
  {
  }

  /**
    What a resolution may change about one hog: flags are only ever raised
    (`hasStepped`, `stuck`, `looped`), no waiting mark appears that was not
    there, and cargo and preferences are untouched.
  */
  ghost predicate HogProgress(a: Hog, b: Hog)
  {
    && (a.hasStepped ==> b.hasStepped)
    && (a.stuck ==> b.stuck)
    && (a.looped ==> b.looped)
    && (b.isWaiting ==> a.isWaiting)
    && b.holding == a.holding
    && b.prefs == a.prefs
  }

  /**
    `r` is what resolving steps may leave of `w`: a valid arena on the same
    board with the same hogs, `HogProgress` for each, and every hog that was
    stuck, unless it is in `skip`, still where it was.
  */
  ghost predicate Resolves(w: World, r: World, skip: set<HogId>)
  {
    && r.Valid()
    && r.board == w.board
    && |r.hogs| == |w.hogs|
    && (forall i :: 0 <= i < |w.hogs| ==> HogProgress(w.hogs[i], r.hogs[i]))
    && (forall i :: 0 <= i < |w.hogs| && i !in skip && w.hogs[i].stuck ==>
          r.hogs[i].tile == w.hogs[i].tile && r.hogs[i].dir == w.hogs[i].dir)
  }

  lemma ResolvesRefl(w: World, skip: set<HogId>)
    requires w.Valid()
    ensures Resolves(w, w, skip)
  {
  }

  lemma ResolvesTrans(a: World, b: World, c: World, skip: set<HogId>)
    requires Resolves(a, b, skip) && Resolves(b, c, skip)
    ensures Resolves(a, c, skip)
  {
    forall i | 0 <= i < |a.hogs|
      ensures HogProgress(a.hogs[i], c.hogs[i])
    {
      assert HogProgress(a.hogs[i], b.hogs[i]);
      assert HogProgress(b.hogs[i], c.hogs[i]);
    }
  }

  /** A hog that was not stuck at the start may be exempted or not: it makes no difference. */
  lemma ResolvesNarrow(w: World, r: World, h: HogId)
    requires Resolves(w, r, {h}) && w.IsHog(h) && !w.hogs[h].stuck
    ensures Resolves(w, r, {})
  {
  }

  lemma ResolvesWiden(w: World, r: World, h: HogId)
    requires Resolves(w, r, {})
    ensures Resolves(w, r, {h})
  {
  }

  /** Raising flags of one hog is a resolution step. */
  lemma ResolvesFlag(w: World, h: HogId, hog: Hog)
    requires w.Valid() && w.IsHog(h)
    requires hog == w.hogs[h].(hasStepped := hog.hasStepped, stuck := hog.stuck, looped := hog.looped)
    requires HogProgress(w.hogs[h], hog)
    ensures Resolves(w, SetHog(w, h, hog), {})
  {
  }

  /** Moving a hog is a resolution step in which only that hog changes place. */
  lemma ResolvesMove(w: World, h: HogId)
    requires w.Valid() && w.IsHog(h)
    ensures Resolves(w, Move(w, h), {h})
  {
  }

  /**
    Marking a hog waiting, resolving, and clearing the mark again is a
    resolution step when the part in between is.
  */
  lemma ResolvesWait(w: World, h: HogId, w1: World, skip: set<HogId>)
    requires w.Valid() && w.IsHog(h)
    requires Resolves(SetWaiting(w, h, true), w1, skip)
    ensures Resolves(w, SetWaiting(w1, h, false), skip)
  {
    var wa := SetWaiting(w, h, true);
    var w3 := SetWaiting(w1, h, false);
    forall i | 0 <= i < |w.hogs|
      ensures HogProgress(w.hogs[i], w3.hogs[i])
    {
      assert HogProgress(wa.hogs[i], w1.hogs[i]);
    }
  }

  /**
    The loop-marking walk `while (f !== this) { f.looped = true; f = f.following(); }`,
    bounded by `bound` iterations.  Only `looped` flags change.
  */
  function MarkLoop(w: World, f: HogId, target: HogId, bound: nat): (r: Result<World, StepError>)
    requires w.Valid() && w.IsHog(f) && w.IsHog(target)
    ensures r.Success? ==> Resolves(w, r.value, {}) && r.value.occ == w.occ
    ensures r.Success? ==> forall i :: 0 <= i < |w.hogs| ==>
              r.value.hogs[i] == w.hogs[i].(looped := r.value.hogs[i].looped)
    ensures r.Success? ==> r.value.hogs[f].looped || f == target
    ensures r.Failure? ==> r.error == EndlessWalk || r.error == WalkFellOff
    decreases bound
  {
    if f == target then Success(w)
    else if bound == 0 then Failure(EndlessWalk)
    else
      var w1 := SetLooped(w, f);
      ResolvesFlag(w, f, w.hogs[f].(looped := true));
      match Following(w1, f)
      case None => Failure(WalkFellOff)
      case Some(n) =>
        var r := MarkLoop(w1, n, target, bound - 1);
        if r.Success? then ResolvesTrans(w, w1, r.value, {}); r else r
  }

  /**
    `Hog.step()`.  A hog that has stepped or is stuck returns at once; every
    other path marks it stepped, or stuck and stepped.  Recursion follows the
    chain of hogs in front and consumes one unit of fuel per call.  A hog that
    was stuck before the call is where it was after it.
  */
  function Step(w: World, h: HogId, fuel: nat): (r: Result<World, StepError>)
    requires w.Valid() && w.IsHog(h)
    ensures w.hogs[h].hasStepped || w.hogs[h].stuck ==> r == Success(w)
    ensures r.Success? ==> Resolves(w, r.value, {})
    ensures r.Success? ==> r.value.hogs[h].hasStepped || r.value.hogs[h].stuck
    decreases fuel, 4
  {
    var hog := w.hogs[h];
    if hog.hasStepped || hog.stuck then
      ResolvesRefl(w, {});
      Success(w)
    else if fuel == 0 then Failure(OutOfFuel)
    else
      var next := Following(w, h);
      if next == Some(h) then
        // a dead end: the hog would follow itself
        ResolvesFlag(w, h, hog.(stuck := true, hasStepped := true));
        Success(SetStuck(w, h))
      else if hog.looped then
        LoopedAdvance(w, h, next, fuel)
      else if next.Some? then
        FollowLeader(w, h, next.value, fuel)
      else
        var r := Advance(w, h, fuel);
        if r.Success? then ResolvesNarrow(w, r.value, h); r else r
  }

  /**
    The branch of `step()` for a hog with a leader `n` that is not itself:
    behind a stuck or looped leader the hog gets stuck; a waiting leader
    closes a new loop; otherwise the hog waits for the leader to move first.
  */
  function FollowLeader(w: World, h: HogId, n: HogId, fuel: nat): (r: Result<World, StepError>)
    requires w.Valid() && w.IsHog(h) && w.IsHog(n) && fuel > 0 && !w.hogs[h].stuck
    ensures r.Success? ==> Resolves(w, r.value, {}) && r.value.hogs[h].hasStepped
    ensures w.hogs[n].looped || w.hogs[n].stuck ==> r == Success(SetStuck(w, h))
    ensures !w.hogs[n].looped && !w.hogs[n].stuck && w.hogs[n].isWaiting && r.Success? ==> r.value.hogs[h].looped
    decreases fuel, 3
  {
    if w.hogs[n].looped || w.hogs[n].stuck then
      ResolvesFlag(w, h, w.hogs[h].(stuck := true, hasStepped := true));
      Success(SetStuck(w, h))
    else if w.hogs[n].isWaiting then
      // the hog in front is waiting on this one: a new loop
      var r := LoopStep(w, h, n, fuel);
      if r.Success? then ResolvesNarrow(w, r.value, h); r else r
    else
      // let the hog in front move first
      WaitThenAdvance(w, h, n, fuel)
  }

  /**
    The branch of `step()` for a hog already known to be in a loop: it is
    marked stepped, moves, and then steps the hog it follows, if any.
  */
  function LoopedAdvance(w: World, h: HogId, next: Option<HogId>, fuel: nat): (r: Result<World, StepError>)
    requires w.Valid() && w.IsHog(h) && fuel > 0 && !w.hogs[h].stuck
    requires next.Some? ==> w.IsHog(next.value)
    ensures r.Success? ==> Resolves(w, r.value, {}) && r.value.hogs[h].hasStepped
    ensures r.Success? && w.hogs[h].looped ==> r.value.hogs[h].looped
    decreases fuel, 2
  {
    var w0 := SetStepped(w, h);
    var w1 := Move(w0, h);
    ResolvesFlag(w, h, w.hogs[h].(hasStepped := true));
    ResolvesMove(w0, h);
    ResolvesWiden(w, w0, h);
    ResolvesTrans(w, w0, w1, {h});
    ResolvesNarrow(w, w1, h);
    if next.Some? then
      var r := Step(w1, next.value, fuel - 1);
      if r.Success? then ResolvesTrans(w, w1, r.value, {}); r else r
    else Success(w1)
  }

  /**
    The loop branch of `step()`: the hog in front, `n`, is waiting on this one.
    The walk marks every hog of the cycle looped, this hog moves and is
    stepped, then `n` is stepped.
  */
  function LoopStep(w: World, h: HogId, n: HogId, fuel: nat): (r: Result<World, StepError>)
    requires w.Valid() && w.IsHog(h) && w.IsHog(n) && fuel > 0
    ensures r.Success? ==> Resolves(w, r.value, {h}) && r.value.hogs[h].hasStepped && r.value.hogs[h].looped
    decreases fuel, 1
  {
    var w0 := SetLooped(w, h);
    ResolvesFlag(w, h, w.hogs[h].(looped := true));
    var w1 :- MarkLoop(w0, n, h, |w.hogs|);
    ResolvesTrans(w, w0, w1, {});
    var w2 := Move(w1, h);
    ResolvesMove(w1, h);
    ResolvesWiden(w, w1, h);
    ResolvesTrans(w, w1, w2, {h});
    var w3 := SetStepped(w2, h);
    ResolvesFlag(w2, h, w2.hogs[h].(hasStepped := true));
    ResolvesWiden(w2, w3, h);
    ResolvesTrans(w, w2, w3, {h});
    var r := Step(w3, n, fuel - 1);
    if r.Success? then
      ResolvesWiden(w3, r.value, h);
      ResolvesTrans(w, w3, r.value, {h});
      r
    else r
  }

  /** The waiting branch of `step()`: mark waiting, step the hog in front, unmark, finish. */
  function WaitThenAdvance(w: World, h: HogId, n: HogId, fuel: nat): (r: Result<World, StepError>)
    requires w.Valid() && w.IsHog(h) && w.IsHog(n) && fuel > 0
    requires !w.hogs[h].stuck
    ensures r.Success? ==> Resolves(w, r.value, {}) && r.value.hogs[h].hasStepped
    ensures r.Success? ==> !r.value.hogs[h].isWaiting
    decreases fuel, 2
  {
    var w1 :- Step(SetWaiting(w, h, true), n, fuel - 1);
    var w3 := SetWaiting(w1, h, false);
    ResolvesWait(w, h, w1, {});
    var r := AfterWait(w3, h, fuel);
    if r.Success? then
      ResolvesWiden(w, w3, h);
      ResolvesTrans(w, w3, r.value, {h});
      ResolvesNarrow(w, r.value, h);
      r
    else r
  }

  /**
    The rest of `step()` once the hog in front has been resolved.  If something
    still blocks the way the hog only marks itself stepped: the source then reads
    `looped`/`stuck` of the `following` method instead of its result, which are
    undefined, so this branch never marks the hog stuck.
  */
  function AfterWait(w: World, h: HogId, fuel: nat): (r: Result<World, StepError>)
    requires w.Valid() && w.IsHog(h) && fuel > 0
    ensures r.Success? ==> Resolves(w, r.value, {h}) && r.value.hogs[h].hasStepped
    ensures Following(w, h).Some? ==>
              && r.Success?
              && r.value.hogs[h].stuck == w.hogs[h].stuck
              && r.value.hogs[h].tile == w.hogs[h].tile
              && r.value.occ == w.occ
    decreases fuel, 1
  {
    if Following(w, h).Some? then
      ResolvesFlag(w, h, w.hogs[h].(hasStepped := true));
      ResolvesWiden(w, SetStepped(w, h), h);
      Success(SetStepped(w, h))
    else Advance(w, h, fuel)
  }

  /**
    The tail of `step()` when nobody is in front: yield to a hog competing for
    the same T junction (step it, stay put), otherwise move.
  */
  function Advance(w: World, h: HogId, fuel: nat): (r: Result<World, StepError>)
    requires w.Valid() && w.IsHog(h) && fuel > 0
    ensures r.Success? ==> Resolves(w, r.value, {h}) && r.value.hogs[h].hasStepped
    ensures HogCompetingForT(w, h) == NoCompetitor ==>
              r == Success(SetStepped(Move(w, h), h))
    ensures HogCompetingForT(w, h) == ProbeRival ==> r == Failure(DetachedProbe)
    decreases fuel, 0
  {
    match HogCompetingForT(w, h)
    case Rival(c) =>
      var w1 :- Step(w, c, fuel - 1);
      ResolvesFlag(w1, h, w1.hogs[h].(hasStepped := true));
      ResolvesTrans(w, w1, SetStepped(w1, h), {});
      ResolvesWiden(w, SetStepped(w1, h), h);
      Success(SetStepped(w1, h))
    case ProbeRival => Failure(DetachedProbe)
    case NoCompetitor =>
      var w1 := Move(w, h);
      ResolvesMove(w, h);
      ResolvesFlag(w1, h, w1.hogs[h].(hasStepped := true));
      ResolvesWiden(w1, SetStepped(w1, h), h);
      ResolvesTrans(w, w1, SetStepped(w1, h), {h});
      Success(SetStepped(w1, h))
  }

  /**
    A hog with no road ahead, right or left stays on its tile, and so does its
    probe; if it is the first such hog in its tile's list it follows itself
    and is marked stuck, without moving.
  */
  lemma {:induction false} RoadlessFirstHogSticks(w: World, h: HogId, fuel: nat)
    requires w.Valid() && w.IsHog(h) && fuel > 0
    requires !w.hogs[h].hasStepped && !w.hogs[h].stuck
    requires GoingOf(w, h).None?
    requires FirstGoing(w, w.occ[w.hogs[h].tile], None) == Some(h)
    ensures Following(w, h) == Some(h)
    ensures Step(w, h, fuel) == Success(SetStuck(w, h))
  {
    assert ProbeTile(w, h) == w.hogs[h].tile;
    assert ProbeDir(w, h) == w.hogs[h].dir;
  }

  /** A hog whose leader is stuck or part of a loop becomes stuck itself and stays put. */
  lemma BlockedBehindStuck(w: World, h: HogId, n: HogId, fuel: nat)
    requires w.Valid() && w.IsHog(h) && fuel > 0
    requires !w.hogs[h].hasStepped && !w.hogs[h].stuck && !w.hogs[h].looped
    requires Following(w, h) == Some(n) && n != h
    requires w.hogs[n].stuck || w.hogs[n].looped
    ensures Step(w, h, fuel) == Success(SetStuck(w, h))
    ensures Step(w, h, fuel).value.hogs[h].tile == w.hogs[h].tile
  {
  }

  /**
    A hog that finds its leader waiting on it has closed a cycle: it ends up
    looped and stepped, or the walk along the cycle fails.
  */
  lemma ClosingACycleLoops(w: World, h: HogId, n: HogId, fuel: nat)
    requires w.Valid() && w.IsHog(h) && fuel > 0
    requires !w.hogs[h].hasStepped && !w.hogs[h].stuck && !w.hogs[h].looped
    requires Following(w, h) == Some(n) && n != h
    requires !w.hogs[n].stuck && !w.hogs[n].looped && w.hogs[n].isWaiting
    ensures Step(w, h, fuel).Success? ==>
              Step(w, h, fuel).value.hogs[h].looped && Step(w, h, fuel).value.hogs[h].hasStepped
  {
  }

  /** With nobody in front and nobody to yield to, a hog moves one tile and is marked stepped. */
  lemma FreeRoadAdvances(w: World, h: HogId, fuel: nat)
    requires w.Valid() && w.IsHog(h) && fuel > 0
    requires !w.hogs[h].hasStepped && !w.hogs[h].stuck && !w.hogs[h].looped
    requires Following(w, h).None? && HogCompetingForT(w, h) == NoCompetitor
    ensures Step(w, h, fuel) == Success(SetStepped(Move(w, h), h))
  {
  }
}

/** `Board.step()`'s movement phase: the per-tick reset and one `step()` per hog. */
module Tick {
  import opened Wrappers
  import opened Grid
  import opened World
  import opened Movement

  /** Every hog has been resolved: it stepped or it is stuck. */
  ghost predicate Settled(w: World)
  {
    forall i :: 0 <= i < |w.hogs| ==> w.hogs[i].hasStepped || w.hogs[i].stuck
  }

  /**
    `Board.step()`'s first loops: every hog forgets `has_stepped` and
    `hopped_from`; if the board was edited since the last tick, `looped` and
    `stuck` are forgotten too.  Positions and lists are untouched.
  */
  function ResetTick(w: World, isChanged: bool): (r: World)
    requires w.Valid()
    ensures r.Valid() && r.board == w.board && r.occ == w.occ && |r.hogs| == |w.hogs|
    ensures forall i :: 0 <= i < |w.hogs| ==>
              && r.hogs[i] == w.hogs[i].(hasStepped := false, hoppedFrom := None,
                                         looped := r.hogs[i].looped, stuck := r.hogs[i].stuck)
              && r.hogs[i].looped == (w.hogs[i].looped && !isChanged)
              && r.hogs[i].stuck == (w.hogs[i].stuck && !isChanged)
  {
    var hogs := seq(|w.hogs|, i requires 0 <= i < |w.hogs| =>
      w.hogs[i].(hasStepped := false, hoppedFrom := None,
                 looped := w.hogs[i].looped && !isChanged,
                 stuck := w.hogs[i].stuck && !isChanged));
    World(w.board, hogs, w.occ)
  }

  /** `step()` for each hog of `order` in turn. */
  function StepEach(w: World, order: seq<HogId>, fuel: nat): (r: Result<World, StepError>)
    requires w.Valid() && HogList(w, order)
    ensures r.Success? ==> Resolves(w, r.value, {})
    ensures r.Success? ==> forall x :: x in order ==>
              r.value.hogs[x].hasStepped || r.value.hogs[x].stuck
    decreases |order|
  {
    if |order| == 0 then
      ResolvesRefl(w, {});
      Success(w)
    else
      var w1 :- Step(w, order[0], fuel);
      assert HogList(w1, order[1..]) by {
        assert forall x :: x in order[1..] ==> x in order;
      }
      var r :- StepEach(w1, order[1..], fuel);
      ResolvesTrans(w, w1, r, {});
      SettledAlong(w1, r, order);
      Success(r)
  }

  /** Helper for `StepEach`: the head stays resolved, the tail was resolved by the recursive call. */
  lemma SettledAlong(w1: World, r: World, order: seq<HogId>)
    requires |order| > 0 && Resolves(w1, r, {}) && w1.IsHog(order[0])
    requires w1.hogs[order[0]].hasStepped || w1.hogs[order[0]].stuck
    requires forall x :: x in order[1..] ==> r.IsHog(x) && (r.hogs[x].hasStepped || r.hogs[x].stuck)
    ensures forall x :: x in order ==> r.IsHog(x) && (r.hogs[x].hasStepped || r.hogs[x].stuck)
  {
    assert HogProgress(w1.hogs[order[0]], r.hogs[order[0]]);
    forall x | x in order
      ensures r.IsHog(x) && (r.hogs[x].hasStepped || r.hogs[x].stuck)
    {
      if x != order[0] {
        assert x in order[1..];
      }
    }
  }

  /** Once every hog is resolved, stepping any of them again changes nothing. */
  lemma {:induction false} StepEachSettled(w: World, order: seq<HogId>, fuel: nat)
    requires w.Valid() && HogList(w, order) && Settled(w)
    ensures StepEach(w, order, fuel) == Success(w)
    decreases |order|
  {
    if |order| > 0 {
      var h := order[0];
      assert w.IsHog(h);
      assert w.hogs[h].hasStepped || w.hogs[h].stuck;
      assert HogList(w, order[1..]) by {
        assert forall x :: x in order[1..] ==> x in order;
      }
      StepEachSettled(w, order[1..], fuel);
    }
  }

  /**
    One tick of movement: reset, then `step()` every hog in the order of
    `Board.hogs` (the tiles' lists, concatenated) as it stood after the reset.
    The board's edit flag is cleared.
  */
  function TickMoves(w: World, isChanged: bool, fuel: nat): (r: Result<(World, bool), StepError>)
    requires w.Valid()
    ensures r.Success? ==> !r.value.1
    ensures r.Success? ==> Resolves(ResetTick(w, isChanged), r.value.0, {})
    ensures r.Success? ==> Settled(r.value.0)
  {
    var w0 := ResetTick(w, isChanged);
    AllHogsComplete(w0);
    var w1 :- StepEach(w0, AllHogs(w0.occ), fuel);
    assert forall i :: 0 <= i < |w1.hogs| ==> i in AllHogs(w0.occ);
    Success((w1, false))
  }

  /**
    Across a tick on an unedited board a stuck hog stays stuck and stays put,
    and whatever hogs carry and mean to visit is untouched by movement.
  */
  lemma {:induction false} TickKeepsStuck(w: World, fuel: nat, h: HogId)
    requires w.Valid() && w.IsHog(h)
    requires TickMoves(w, false, fuel).Success?
    ensures var r := TickMoves(w, false, fuel).value.0;
            && (w.hogs[h].stuck ==> r.hogs[h].stuck && r.hogs[h].tile == w.hogs[h].tile && r.hogs[h].dir == w.hogs[h].dir)
            && r.hogs[h].holding == w.hogs[h].holding
            && r.hogs[h].prefs == w.hogs[h].prefs
  {
    var w0 := ResetTick(w, false);
    var r := TickMoves(w, false, fuel).value.0;
    assert HogProgress(w0.hogs[h], r.hogs[h]);
  }

  /** A tick leaves no hog waiting that was not waiting before it. */
  lemma {:induction false} TickClearsWaiting(w: World, isChanged: bool, fuel: nat, h: HogId)
    requires w.Valid() && w.IsHog(h)
    requires TickMoves(w, isChanged, fuel).Success?
    ensures TickMoves(w, isChanged, fuel).value.0.hogs[h].isWaiting ==> w.hogs[h].isWaiting
  {
    var w0 := ResetTick(w, isChanged);
    var r := TickMoves(w, isChanged, fuel).value.0;
    assert HogProgress(w0.hogs[h], r.hogs[h]);
  }

  /** Resolution is idempotent: stepping the hogs again, in any order, after a tick changes nothing. */
  lemma TickIdempotent(w: World, isChanged: bool, fuel: nat, order: seq<HogId>)
    requires w.Valid()
    requires TickMoves(w, isChanged, fuel).Success?
    requires HogList(TickMoves(w, isChanged, fuel).value.0, order)
    ensures var r := TickMoves(w, isChanged, fuel).value.0;
            StepEach(r, order, fuel) == Success(r)
  {
    StepEachSettled(TickMoves(w, isChanged, fuel).value.0, order, fuel);
  }
}
