/**
  The matcher and the facility counters of the monolithic version
  (`groundhogday.js`): `Interactable.prefers`, `Matchmaker.consult_next` and
  `match`, the givers' `resource_count`, and shop crafting.  Flans move by the
  same algorithm as the modular hogs (module `Movement`); here they carry
  `Resource` objects, which `prefers` compares by identity.
*/
module Matchmaker {
  import opened Wrappers
  import opened Grid
  import opened Goods
  import opened Lists
  import opened World
  import opened Queue
  import Facilities
  import Matching

  /** `new Resource(name)`: a name, and an object identity `oid` that `===` compares. */
  datatype Resource = Resource(oid: nat, name: string)

  /**
    A flan, as far as matching sees it: tile and heading, whether it moved this
    tick (`hopped_from`), its cargo (`false` is `None`) and its preferences.
  */
  datatype Flan = Flan(tile: Tile, dir: Dir, hopped: bool, holding: Option<Resource>, prefs: seq<Option<FacId>>)

  /** A shop recipe: the input parts and `output: [product, amount]`. */
  datatype Recipe = Recipe(input: seq<RecipePart>, product: string, amount: int)

  /** Facility kinds; a shop input knows its recipe and the index of its shop's output. */
  datatype Kind =
    | Castle
    | BerryBush
    | Tree
    | ShopInput(recipe: Recipe, output: FacId)
    | ShopOutput(recipe: Recipe)

  /** `instanceof Taker`. */
  predicate IsTaker(k: Kind) {
    k.Castle? || k.ShopInput?
  }

  /** `instanceof Giver`. */
  predicate IsGiver(k: Kind) {
    k.BerryBush? || k.Tree? || k.ShopOutput?
  }

  /**
    A facility: its kind, `tile_preferences`, what it holds (takers) and its
    `resource_count` (givers).
  */
  datatype Facility = Facility(kind: Kind, tilePrefs: seq<Option<Tile>>, holding: seq<Option<Resource>>, count: int)

  /** `baseResourceCount()`. */
  function BaseResourceCount(k: Kind): nat
    requires IsGiver(k)
  {
    match k
    case BerryBush => 2
    case Tree => 1
    case ShopOutput(_) => 0
  }

  /** The name of `resourceType()`. */
  function ResourceName(k: Kind): string
    requires IsGiver(k)
  {
    match k
    case BerryBush => "berry"
    case Tree => "wood"
    case ShopOutput(recipe) => recipe.product
  }

  /** `holding.name`: undefined (`None`) for `false`. */
  function NameOf(h: Option<Resource>): Option<string> {
    if h.Some? then Some(h.value.name) else None
  }

  /** `numberHeld(name)`: the held entries whose `name` is `name`. */
  function NumberHeld(holding: seq<Option<Resource>>, name: string): (n: nat)
    ensures n <= |holding|
    ensures n == 0 <==> forall k :: 0 <= k < |holding| ==> NameOf(holding[k]) != Some(name)
  {
    if |holding| == 0 then 0
    else
      assert forall k :: 1 <= k < |holding| ==> holding[1..][k - 1] == holding[k];
      (if NameOf(holding[0]) == Some(name) then 1 else 0) + NumberHeld(holding[1..], name)
  }

  lemma {:induction false} NumberHeldConcat(a: seq<Option<Resource>>, b: seq<Option<Resource>>, name: string)
    ensures NumberHeld(a + b, name) == NumberHeld(a, name) + NumberHeld(b, name)
  {
    if |a| == 0 {
      assert a + b == b;
    } else {
      assert (a + b)[1..] == a[1..] + b;
      NumberHeldConcat(a[1..], b, name);
    }
  }

  /** Every shop input's output index names the output of the same shop (same recipe). */
  ghost predicate Wired(facs: seq<Facility>) {
    forall f :: 0 <= f < |facs| && facs[f].kind.ShopInput? ==>
      facs[f].kind.output < |facs| && facs[facs[f].kind.output].kind == ShopOutput(facs[f].kind.recipe)
  }

  /**
    `max_interactions(key)`: 100 for a castle; `resource_count` for a giver;
    for a shop input, nothing while its shop's output is stocked, else what
    the recipe asks for of that ingredient minus what is held, or nothing if
    the recipe does not use it.
  */
  function Capacity(facs: seq<Facility>, f: FacId, key: Option<string>): (c: int)
    requires f < |facs| && Wired(facs)
    ensures facs[f].kind.Castle? ==> c == Facilities.TakerCapacity
    ensures IsGiver(facs[f].kind) ==> c == facs[f].count
    ensures facs[f].kind.ShopInput? && facs[facs[f].kind.output].count > 0 ==> c == 0
    ensures facs[f].kind.ShopInput? && key.None? ==> c == 0
    ensures facs[f].kind.ShopInput? && key.Some? && facs[facs[f].kind.output].count <= 0 ==>
              var part := Facilities.RecipeRequires(facs[f].kind.recipe.input, key.value);
              && (part.None? ==> c == 0)
              && (part.Some? ==> c + NumberHeld(facs[f].holding, key.value) == part.value.amount)
  {
    var fac := facs[f];
    match fac.kind
    case Castle => Facilities.TakerCapacity
    case BerryBush => fac.count
    case Tree => fac.count
    case ShopOutput(_) => fac.count
    case ShopInput(recipe, output) =>
      if facs[output].count > 0 then 0
      else if key.None? then 0
      else
        match Facilities.RecipeRequires(recipe.input, key.value)
        case None => 0
        case Some(part) => part.amount - NumberHeld(fac.holding, key.value)
  }

  /** `replenish()` restores a giver's capacity to its base count. */
  function Replenish(facs: seq<Facility>, f: FacId): (r: seq<Facility>)
    requires f < |facs| && IsGiver(facs[f].kind) && Wired(facs)
    ensures |r| == |facs| && Wired(r)
    ensures forall g :: 0 <= g < |facs| && g != f ==> r[g] == facs[g]
    ensures r[f].kind == facs[f].kind && r[f].holding == facs[f].holding
    ensures forall key :: Capacity(r, f, key) == BaseResourceCount(facs[f].kind)
  {
    facs[f := facs[f].(count := BaseResourceCount(facs[f].kind))]
  }

  /** `===` on holdings (`ByIdentity`, as written) or equality of names (`ByName`). */
  datatype Sameness = ByIdentity | ByName

  predicate Same(mode: Sameness, a: Option<Resource>, b: Option<Resource>) {
    match mode
    case ByIdentity => (a.None? && b.None?) || (a.Some? && b.Some? && a.value.oid == b.value.oid)
    case ByName => NameOf(a) == NameOf(b)
  }

  /** Whether the flan `x` is kept by `Mine`'s filter. */
  predicate Keeps(mode: Sameness, flans: seq<Flan>, x: HogId, h: Option<Resource>) {
    x < |flans| && Same(mode, flans[x].holding, h)
  }

  /** `flans_of(this).filter(f => f.holding === flan.holding)`, with the comparison `mode`. */
  function Mine(mode: Sameness, flans: seq<Flan>, list: seq<HogId>, h: Option<Resource>): (r: seq<HogId>)
    ensures |r| <= |list|
  {
    if |list| == 0 then []
    else (if Keeps(mode, flans, list[0], h) then [list[0]] else []) + Mine(mode, flans, list[1..], h)
  }

  /** Everything `Mine` keeps is listed and passes the filter. */
  lemma {:induction false} MineSound(mode: Sameness, flans: seq<Flan>, list: seq<HogId>, h: Option<Resource>)
    ensures forall x :: x in Mine(mode, flans, list, h) ==> x in list && Keeps(mode, flans, x, h)
  {
    if |list| > 0 {
      MineSound(mode, flans, list[1..], h);
      assert forall x :: x in list[1..] ==> x in list;
    }
  }

  lemma {:induction false} MineAppend(mode: Sameness, flans: seq<Flan>, list: seq<HogId>, y: HogId, h: Option<Resource>)
    ensures Mine(mode, flans, list + [y], h) ==
              Mine(mode, flans, list, h) + (if Keeps(mode, flans, y, h) then [y] else [])
  {
    if |list| == 0 {
      assert [y][1..] == [];
    } else {
      var l := list + [y];
      assert l[0] == list[0] && l[1..] == list[1..] + [y];
      MineAppend(mode, flans, list[1..], y, h);
      var hd := if Keeps(mode, flans, list[0], h) then [list[0]] else [];
      var tl := if Keeps(mode, flans, y, h) then [y] else [];
      assert Mine(mode, flans, l, h) == hd + Mine(mode, flans, l[1..], h);
      assert hd + (Mine(mode, flans, list[1..], h) + tl) == (hd + Mine(mode, flans, list[1..], h)) + tl;
    }
  }

  /** Compared by name, only the name of the holding matters. */
  lemma {:induction false} MineByNameKey(flans: seq<Flan>, list: seq<HogId>, h1: Option<Resource>, h2: Option<Resource>)
    requires NameOf(h1) == NameOf(h2)
    ensures Mine(ByName, flans, list, h1) == Mine(ByName, flans, list, h2)
  {
    if |list| > 0 {
      MineByNameKey(flans, list[1..], h1, h2);
    }
  }

  /** Which flans compete depends on their cargo only, not on their preferences. */
  lemma {:induction false} MineCargoOnly(mode: Sameness, flans: seq<Flan>, flans': seq<Flan>, list: seq<HogId>, h: Option<Resource>)
    requires |flans'| == |flans| && forall x :: 0 <= x < |flans| ==> flans'[x].holding == flans[x].holding
    ensures Mine(mode, flans', list, h) == Mine(mode, flans, list, h)
  {
    if |list| > 0 {
      MineCargoOnly(mode, flans, flans', list[1..], h);
    }
  }

  /** `tile_preferences.indexOf(flan.tile)`: -1, the best, when absent. */
  function Rank(fac: Facility, flan: Flan): int {
    IndexOf(fac.tilePrefs, Some(flan.tile))
  }

  /** The position in `list` of the first flan ranked strictly worse than `flan`, or -1. */
  function FirstWorse(fac: Facility, flans: seq<Flan>, list: seq<HogId>, flan: Flan): (k: int)
    requires forall i :: 0 <= i < |list| ==> list[i] < |flans|
    ensures -1 <= k < |list|
    ensures k == -1 ==> forall i :: 0 <= i < |list| ==> Rank(fac, flans[list[i]]) <= Rank(fac, flan)
    ensures k >= 0 ==> Rank(fac, flan) < Rank(fac, flans[list[k]])
    ensures k >= 0 ==> forall j :: 0 <= j < k ==> Rank(fac, flans[list[j]]) <= Rank(fac, flan)
    decreases |list|
  {
    if |list| == 0 then -1
    else if Rank(fac, flan) < Rank(fac, flans[list[0]]) then 0
    else
      var k := FirstWorse(fac, flans, list[1..], flan);
      assert forall j :: 1 <= j < |list| ==> list[j] == list[1..][j - 1];
      if k == -1 then -1 else k + 1
  }

  /** Position `k` of `list` holds the first flan ranked strictly worse than `flan`. */
  ghost predicate FirstWorseAt(fac: Facility, flans: seq<Flan>, list: seq<HogId>, flan: Flan, k: nat) {
    && k < |list|
    && (forall j :: 0 <= j <= k ==> list[j] < |flans|)
    && Rank(fac, flan) < Rank(fac, flans[list[k]])
    && forall j :: 0 <= j < k ==> Rank(fac, flans[list[j]]) <= Rank(fac, flan)
  }

  /** What `prefers` returns: `false`, `true`, or a competing flan. */
  datatype Verdict = Refuse | Accept | Evict(rival: HogId)

  /**
    `prefers(flan, queue)`: `true` while fewer than `max_interactions` of the
    flans queued here hold the same thing as `flan`; otherwise the first of
    those that the facility ranks below `flan`; otherwise `false`.
  */
  function Prefers(mode: Sameness, facs: seq<Facility>, flans: seq<Flan>, q: seq<Claim>, f: FacId, x: HogId): (r: Verdict)
    requires Wired(facs) && f < |facs| && x < |flans| && ClaimsInRange(q, |flans|, |facs|)
    ensures var mine := Mine(mode, flans, HogsOf(q, f), flans[x].holding);
            var cap := Capacity(facs, f, NameOf(flans[x].holding));
            && (r.Accept? <==> |mine| < cap)
            && (r.Evict? ==> r.rival in mine && r.rival < |flans| && Rank(facs[f], flans[x]) < Rank(facs[f], flans[r.rival]))
            && (r.Evict? ==> exists k: nat :: FirstWorseAt(facs[f], flans, mine, flans[x], k) && mine[k] == r.rival)
            && (r.Refuse? ==> forall y :: y in mine ==> y < |flans| && Rank(facs[f], flans[y]) <= Rank(facs[f], flans[x]))
  {
    var mine := Mine(mode, flans, HogsOf(q, f), flans[x].holding);
    MineSound(mode, flans, HogsOf(q, f), flans[x].holding);
    assert forall i :: 0 <= i < |mine| ==> mine[i] in mine;
    if |mine| < Capacity(facs, f, NameOf(flans[x].holding)) then Accept
    else
      var k := FirstWorse(facs[f], flans, mine, flans[x]);
      if k == -1 then Refuse
      else
        assert FirstWorseAt(facs[f], flans, mine, flans[x], k);
        Evict(mine[k])
  }

  /** `target instanceof type` for the phase's type. */
  predicate Serves(k: Kind, phase: Matching.Phase) {
    if phase == Matching.DropOff then IsTaker(k) else IsGiver(k)
  }

  /** The matcher's state: flans (their preferences are consumed), the work list and the claim queue. */
  datatype MatchState = MatchState(flans: seq<Flan>, work: seq<HogId>, queue: seq<Claim>)

  /** Preferences only name facilities that exist. */
  ghost predicate PrefsInRange(flans: seq<Flan>, nfacs: nat) {
    forall x, p :: 0 <= x < |flans| && p in flans[x].prefs && p.Some? ==> p.value < nfacs
  }

  ghost predicate WellFormed(facs: seq<Facility>, st: MatchState) {
    && Wired(facs)
    && (forall i :: 0 <= i < |st.work| ==> st.work[i] < |st.flans|)
    && ClaimsInRange(st.queue, |st.flans|, |facs|)
    && PrefsInRange(st.flans, |facs|)
  }

  /** The termination measure's first component: preferences left over all flans. */
  function PrefsLeft(flans: seq<Flan>): nat {
    if |flans| == 0 then 0 else |flans[0].prefs| + PrefsLeft(flans[1..])
  }

  lemma {:induction false} PrefsLeftUpdate(flans: seq<Flan>, i: nat, flan: Flan)
    requires i < |flans|
    ensures PrefsLeft(flans[i := flan]) == PrefsLeft(flans) - |flans[i].prefs| + |flan.prefs|
  {
    if i > 0 {
      assert flans[i := flan][1..] == flans[1..][i - 1 := flan];
      PrefsLeftUpdate(flans[1..], i - 1, flan);
    }
  }

  /** `interact_preferences.shift()` on flan `x`. */
  function ShiftPref(flans: seq<Flan>, x: HogId, nfacs: nat): (r: seq<Flan>)
    requires x < |flans| && |flans[x].prefs| > 0 && PrefsInRange(flans, nfacs)
    ensures r == flans[x := flans[x].(prefs := flans[x].prefs[1..])]
    ensures PrefsInRange(r, nfacs)
    ensures PrefsLeft(r) < PrefsLeft(flans)
  {
    var flan := flans[x];
    var r := flans[x := flan.(prefs := flan.prefs[1..])];
    PrefsLeftUpdate(flans, x, flan.(prefs := flan.prefs[1..]));
    assert PrefsInRange(r, nfacs) by {
      forall y, p | 0 <= y < |r| && p in r[y].prefs && p.Some? ensures p.value < nfacs {
        if y == x {
          assert p in flan.prefs;
        } else {
          assert p in flans[y].prefs;
        }
      }
    }
    r
  }

  /**
    `Matchmaker.consult_next`: the front flan takes its next preference.  No
    preference left: it drops out.  A facility of the wrong kind (or none): to
    the back of the list.  Then by `prefers`: `false` sends the flan to the back
    of the list; `true` queues its claim; a competing flan is sent to the back
    of the list while `remove_pair` takes the last pair, the flan's own claim
    just added, off the queue again, so the queue is unchanged and the flan
    itself drops out.
  */
  function ConsultNext(mode: Sameness, facs: seq<Facility>, st: MatchState, phase: Matching.Phase): (r: MatchState)
    requires WellFormed(facs, st) && |st.work| > 0
    ensures WellFormed(facs, r) && |r.flans| == |st.flans|
    ensures var x := st.work[0];
            var p := st.flans[x].prefs;
            && (|p| == 0 ==> r == st.(work := st.work[1..]))
            && (|p| > 0 ==> r.flans == st.flans[x := st.flans[x].(prefs := p[1..])])
            && (|p| > 0 && (p[0].None? || !Serves(facs[p[0].value].kind, phase)) ==>
                  r.work == st.work[1..] + [x] && r.queue == st.queue)
    ensures var x := st.work[0];
            var p := st.flans[x].prefs;
            |p| > 0 && p[0].Some? && Serves(facs[p[0].value].kind, phase) ==>
              match Prefers(mode, facs, st.flans, st.queue, p[0].value, x)
              case Refuse => r.work == st.work[1..] + [x] && r.queue == st.queue
              case Accept => r.work == st.work[1..] && r.queue == st.queue + [Claim(x, p[0].value)]
              case Evict(c) => r.work == st.work[1..] + [c] && r.queue == st.queue
    ensures PrefsLeft(r.flans) < PrefsLeft(st.flans) || (r.flans == st.flans && |r.work| < |st.work|)
  {
    var x := st.work[0];
    var rest := st.work[1..];
    var flan := st.flans[x];
    if |flan.prefs| == 0 then st.(work := rest)
    else
      var target := flan.prefs[0];
      assert target in flan.prefs;
      var flans' := ShiftPref(st.flans, x, |facs|);
      if target.None? || !Serves(facs[target.value].kind, phase) then
        MatchState(flans', rest + [x], st.queue)
      else
        var f := target.value;
        match Prefers(mode, facs, st.flans, st.queue, f, x)
        case Refuse => MatchState(flans', rest + [x], st.queue)
        case Accept => MatchState(flans', rest, AddPair(st.queue, Claim(x, f)))
        case Evict(c) =>
          MatchState(flans', rest + [c], RemovePair(AddPair(st.queue, Claim(x, f)), Claim(c, f)))
  }

  /**
    The capacity invariant, comparing cargo by name: for every facility and
    every flan, the queued flans holding a good of the same name number at
    most the facility's capacity for that name.
  */
  ghost predicate WithinCapacity(facs: seq<Facility>, st: MatchState)
    requires WellFormed(facs, st)
  {
    forall f, x :: 0 <= f < |facs| && 0 <= x < |st.flans| ==>
      |Mine(ByName, st.flans, HogsOf(st.queue, f), st.flans[x].holding)|
        <= Matching.Max0(Capacity(facs, f, NameOf(st.flans[x].holding)))
  }

  /** A changed queue means `prefers` said `true`. */
  lemma ConsultAccepted(mode: Sameness, facs: seq<Facility>, st: MatchState, phase: Matching.Phase)
    requires WellFormed(facs, st) && |st.work| > 0
    requires ConsultNext(mode, facs, st, phase).queue != st.queue
    ensures var x := st.work[0];
            var p := st.flans[x].prefs;
            && |p| > 0 && p[0].Some? && p[0].value < |facs|
            && Prefers(mode, facs, st.flans, st.queue, p[0].value, x) == Accept
            && ConsultNext(mode, facs, st, phase).queue == st.queue + [Claim(x, p[0].value)]
  {
    var x := st.work[0];
    var p := st.flans[x].prefs;
    if |p| > 0 {
      assert p[0] in p;
    }
  }

  /** Appending a flan accepted under capacity `capX` keeps a same-named flan's count within `capY`. */
  lemma AcceptKeepsList(flans: seq<Flan>, list: seq<HogId>, x: HogId, hy: Option<Resource>, capX: int, capY: int)
    requires x < |flans|
    requires |Mine(ByName, flans, list, hy)| <= Matching.Max0(capY)
    requires |Mine(ByName, flans, list, flans[x].holding)| < capX
    requires NameOf(flans[x].holding) == NameOf(hy) ==> capX == capY
    ensures |Mine(ByName, flans, list + [x], hy)| <= Matching.Max0(capY)
  {
    MineAppend(ByName, flans, list, x, hy);
    if Same(ByName, flans[x].holding, hy) {
      MineByNameKey(flans, list, hy, flans[x].holding);
    }
  }

  /** Queuing a claim that `prefers` accepted, comparing by name, keeps one point of the capacity invariant. */
  lemma AcceptKeeps(facs: seq<Facility>, flans: seq<Flan>, q: seq<Claim>, x: HogId, f: FacId, g: FacId, y: HogId)
    requires Wired(facs) && x < |flans| && y < |flans| && f < |facs| && g < |facs|
    requires |Mine(ByName, flans, HogsOf(q, g), flans[y].holding)| <= Matching.Max0(Capacity(facs, g, NameOf(flans[y].holding)))
    requires |Mine(ByName, flans, HogsOf(q, f), flans[x].holding)| < Capacity(facs, f, NameOf(flans[x].holding))
    ensures |Mine(ByName, flans, HogsOf(q + [Claim(x, f)], g), flans[y].holding)|
              <= Matching.Max0(Capacity(facs, g, NameOf(flans[y].holding)))
  {
    HogsOfAppend(q, Claim(x, f), g);
    if g == f {
      var hy := flans[y].holding;
      AcceptKeepsList(flans, HogsOf(q, f), x, hy,
                      Capacity(facs, f, NameOf(flans[x].holding)), Capacity(facs, g, NameOf(hy)));
    } else {
      assert HogsOf(q + [Claim(x, f)], g) == HogsOf(q, g);
    }
  }

  /** One facility and one flan of the capacity invariant, after `consult_next` compares by name. */
  lemma CapacityAt(facs: seq<Facility>, st: MatchState, phase: Matching.Phase, g: FacId, y: HogId)
    requires WellFormed(facs, st) && WithinCapacity(facs, st) && |st.work| > 0
    requires g < |facs| && y < |st.flans|
    ensures var r := ConsultNext(ByName, facs, st, phase);
            |Mine(ByName, r.flans, HogsOf(r.queue, g), r.flans[y].holding)|
              <= Matching.Max0(Capacity(facs, g, NameOf(r.flans[y].holding)))
  {
    var r := ConsultNext(ByName, facs, st, phase);
    var hy := st.flans[y].holding;
    assert r.flans[y].holding == hy;
    MineCargoOnly(ByName, st.flans, r.flans, HogsOf(r.queue, g), hy);
    if r.queue != st.queue {
      ConsultAccepted(ByName, facs, st, phase);
      var x := st.work[0];
      AcceptKeeps(facs, st.flans, st.queue, x, st.flans[x].prefs[0].value, g, y);
    }
  }

  /** `consult_next`, comparing cargo by name, keeps the capacity invariant. */
  lemma ConsultKeepsCapacity(facs: seq<Facility>, st: MatchState, phase: Matching.Phase)
    requires WellFormed(facs, st) && WithinCapacity(facs, st) && |st.work| > 0
    ensures WithinCapacity(facs, ConsultNext(ByName, facs, st, phase))
  {
    var r := ConsultNext(ByName, facs, st, phase);
    forall g, y | 0 <= g < |facs| && 0 <= y < |r.flans|
      ensures |Mine(ByName, r.flans, HogsOf(r.queue, g), r.flans[y].holding)|
                <= Matching.Max0(Capacity(facs, g, NameOf(r.flans[y].holding)))
    {
      CapacityAt(facs, st, phase, g, y);
    }
  }

  /**
    A shop that needs one berry, and two moving flans each carrying a berry,
    both wanting to drop it at the shop's input.
  */
  function BerryRecipe(): Recipe {
    Recipe([RecipePart("berry", 1)], "jam", 1)
  }

  function BerryShop(): seq<Facility> {
    [Facility(ShopInput(BerryRecipe(), 1), [], [], 0), Facility(ShopOutput(BerryRecipe()), [], [], 0)]
  }

  function TwoBerries(): MatchState {
    MatchState([Flan(0, N, true, Some(Resource(1, "berry")), [Some(0)]),
                Flan(0, N, true, Some(Resource(2, "berry")), [Some(0)])],
               [0, 1], [])
  }

  /** The flans with the first one's preference consumed, then both. */
  function TwoBerriesAfter(consumed: nat): seq<Flan> {
    [Flan(0, N, true, Some(Resource(1, "berry")), if consumed >= 1 then [] else [Some(0)]),
     Flan(0, N, true, Some(Resource(2, "berry")), if consumed >= 2 then [] else [Some(0)])]
  }

  lemma TwoBerriesWellFormed()
    ensures WellFormed(BerryShop(), TwoBerries())
    ensures Capacity(BerryShop(), 0, Some("berry")) == 1
  {
    assert Facilities.RecipeRequires(BerryRecipe().input, "berry") == Some(RecipePart("berry", 1));
  }

  /** The first berry is accepted, whichever comparison is used. */
  lemma FirstBerryAccepted(mode: Sameness)
    ensures WellFormed(BerryShop(), TwoBerries())
    ensures ConsultNext(mode, BerryShop(), TwoBerries(), Matching.DropOff)
              == MatchState(TwoBerriesAfter(1), [1], [Claim(0, 0)])
  {
    TwoBerriesWellFormed();
    assert Prefers(mode, BerryShop(), TwoBerries().flans, [], 0, 0) == Accept;
  }

  /**
    As written, `prefers` counts only queued flans holding the very same
    `Resource` object, and no two flans ever share one: with the first berry
    queued, the second is accepted too, by an input with room for one.
  */
  lemma SecondBerryVerdict()
    ensures ClaimsInRange([Claim(0, 0)], 2, 2) && Wired(BerryShop())
    ensures Prefers(ByIdentity, BerryShop(), TwoBerriesAfter(1), [Claim(0, 0)], 0, 1) == Accept
  {
    var flans := TwoBerriesAfter(1);
    TwoBerriesWellFormed();
    assert HogsOf([Claim(0, 0)], 0) == [0];
    assert Mine(ByIdentity, flans, [0], flans[1].holding) == [];
  }

  lemma BothConsumed()
    ensures TwoBerriesAfter(1)[1 := TwoBerriesAfter(1)[1].(prefs := TwoBerriesAfter(1)[1].prefs[1..])] == TwoBerriesAfter(2)
  {
    var flans := TwoBerriesAfter(1);
    assert flans[1].prefs[1..] == [];
    var after := flans[1 := flans[1].(prefs := [])];
    assert after[0] == TwoBerriesAfter(2)[0] && after[1] == TwoBerriesAfter(2)[1];
  }

  lemma SecondBerryAcceptedAsWritten()
    ensures WellFormed(BerryShop(), MatchState(TwoBerriesAfter(1), [1], [Claim(0, 0)]))
    ensures ConsultNext(ByIdentity, BerryShop(), MatchState(TwoBerriesAfter(1), [1], [Claim(0, 0)]), Matching.DropOff)
              == MatchState(TwoBerriesAfter(2), [], [Claim(0, 0), Claim(1, 0)])
  {
    TwoBerriesWellFormed();
    SecondBerryVerdict();
    BothConsumed();
    var st := MatchState(TwoBerriesAfter(1), [1], [Claim(0, 0)]);
    var r := ConsultNext(ByIdentity, BerryShop(), st, Matching.DropOff);
    assert st.flans[1].prefs == [Some(0)];
    assert Serves(BerryShop()[0].kind, Matching.DropOff);
    assert r.flans == TwoBerriesAfter(2);
    assert r.work == [] by {
      assert [1][1..] == [];
    }
    assert r.queue == [Claim(0, 0), Claim(1, 0)];
  }

  /** Two berries queued for one slot break the capacity invariant by name. */
  lemma TwoBerriesOverCapacity()
    ensures WellFormed(BerryShop(), MatchState(TwoBerriesAfter(2), [], [Claim(0, 0), Claim(1, 0)]))
    ensures !WithinCapacity(BerryShop(), MatchState(TwoBerriesAfter(2), [], [Claim(0, 0), Claim(1, 0)]))
  {
    var flans := TwoBerriesAfter(2);
    TwoBerriesWellFormed();
    assert HogsOf([Claim(0, 0), Claim(1, 0)], 0) == [0, 1];
    assert Mine(ByName, flans, [0, 1], flans[0].holding) == [0, 1];
  }

  /**
    The discrepancy, end to end: starting within capacity, two `consult_next`
    calls as written leave the queue over capacity.
  */
  lemma IdentityOverfills()
    ensures WellFormed(BerryShop(), TwoBerries()) && WithinCapacity(BerryShop(), TwoBerries())
    ensures var st1 := ConsultNext(ByIdentity, BerryShop(), TwoBerries(), Matching.DropOff);
            && WellFormed(BerryShop(), st1) && |st1.work| > 0
            && var st2 := ConsultNext(ByIdentity, BerryShop(), st1, Matching.DropOff);
               WellFormed(BerryShop(), st2) && !WithinCapacity(BerryShop(), st2)
  {
    TwoBerriesWellFormed();
    FirstBerryAccepted(ByIdentity);
    SecondBerryAcceptedAsWritten();
    TwoBerriesOverCapacity();
  }

  /** Compared by name, the second berry is turned away and the queue stays within capacity. */
  lemma ByNameFits()
    ensures WellFormed(BerryShop(), MatchState(TwoBerriesAfter(1), [1], [Claim(0, 0)]))
    ensures ConsultNext(ByName, BerryShop(), MatchState(TwoBerriesAfter(1), [1], [Claim(0, 0)]), Matching.DropOff)
              == MatchState(TwoBerriesAfter(2), [1], [Claim(0, 0)])
  {
    var facs := BerryShop();
    TwoBerriesWellFormed();
    var flans := TwoBerriesAfter(1);
    assert HogsOf([Claim(0, 0)], 0) == [0];
    assert Mine(ByName, flans, [0], flans[1].holding) == [0];
    assert FirstWorse(facs[0], flans, [0], flans[1]) == -1;
    assert Prefers(ByName, facs, flans, [Claim(0, 0)], 0, 1) == Refuse;
  }

  /**
    What a phase keeps true about the flans it started from (`flans0`) and its
    work list (`work0`): only preferences change, each to what is left of the
    original after some `shift()`s; every claim is on a facility of the
    phase's kind that its flan originally preferred, and made by a flan of the
    work list; the work list holds only such flans.
  */
  ghost predicate Tracks(facs: seq<Facility>, flans0: seq<Flan>, work0: seq<HogId>, st: MatchState, phase: Matching.Phase)
  {
    TracksFlans(flans0, st) && TracksClaims(facs, flans0, work0, st, phase)
  }

  /** Only preferences change, and each flan's preferences are what is left of its initial ones. */
  ghost predicate TracksFlans(flans0: seq<Flan>, st: MatchState)
  {
    && |st.flans| == |flans0|
    && (forall x :: 0 <= x < |flans0| ==> st.flans[x] == flans0[x].(prefs := st.flans[x].prefs))
    && (forall x :: 0 <= x < |flans0| ==> Matching.IsSuffix(st.flans[x].prefs, flans0[x].prefs))
  }

  /** Every claim pairs a flan of the initial work list with a facility it preferred that serves the phase. */
  ghost predicate TracksClaims(facs: seq<Facility>, flans0: seq<Flan>, work0: seq<HogId>, st: MatchState,
                               phase: Matching.Phase)
  {
    && (forall c :: c in st.queue ==>
          && c.fac < |facs| && c.hog < |flans0|
          && Serves(facs[c.fac].kind, phase)
          && Some(c.fac) in flans0[c.hog].prefs
          && c.hog in work0)
    && (forall x :: x in st.work ==> x in work0)
  }

  /** Dropping the first preference of one flan keeps every flan's preferences a suffix of its initial ones. */
  lemma PopKeepsFlans(flans0: seq<Flan>, st: MatchState, x: HogId, r: MatchState)
    requires TracksFlans(flans0, st) && x < |st.flans| && |st.flans[x].prefs| > 0
    requires r.flans == st.flans[x := st.flans[x].(prefs := st.flans[x].prefs[1..])]
    ensures TracksFlans(flans0, r)
  {
    var p := st.flans[x].prefs;
    var p0 := flans0[x].prefs;
    assert p == p0[|p0| - |p|..];
    assert p[1..] == p0[|p0| - |p[1..]|..];
    forall y | 0 <= y < |flans0|
      ensures Matching.IsSuffix(r.flans[y].prefs, flans0[y].prefs)
    {
      if y != x {
        assert r.flans[y] == st.flans[y];
      }
    }
  }

  lemma ConsultKeepsFlans(mode: Sameness, facs: seq<Facility>, flans0: seq<Flan>, st: MatchState,
                          phase: Matching.Phase)
    requires WellFormed(facs, st) && |st.work| > 0 && TracksFlans(flans0, st)
    ensures TracksFlans(flans0, ConsultNext(mode, facs, st, phase))
  {
    var x := st.work[0];
    assert x in st.work;
    if |st.flans[x].prefs| > 0 {
      PopKeepsFlans(flans0, st, x, ConsultNext(mode, facs, st, phase));
    }
  }

  /** A preference of the front flan is one of its initial preferences. */
  lemma FrontPrefOriginal(flans0: seq<Flan>, st: MatchState, x: HogId)
    requires TracksFlans(flans0, st) && x < |st.flans| && |st.flans[x].prefs| > 0
    ensures st.flans[x].prefs[0] in flans0[x].prefs
  {
    var p := st.flans[x].prefs;
    var p0 := flans0[x].prefs;
    assert p == p0[|p0| - |p|..];
    assert p0[|p0| - |p|] == p[0];
  }

  lemma ConsultKeepsTrack(mode: Sameness, facs: seq<Facility>, flans0: seq<Flan>, work0: seq<HogId>, st: MatchState,
                          phase: Matching.Phase)
    requires WellFormed(facs, st) && |st.work| > 0 && Tracks(facs, flans0, work0, st, phase)
    ensures Tracks(facs, flans0, work0, ConsultNext(mode, facs, st, phase), phase)
  {
    ConsultKeepsFlans(mode, facs, flans0, st, phase);
    var r := ConsultNext(mode, facs, st, phase);
    var x := st.work[0];
    assert x in st.work;
    if r.queue != st.queue {
      ConsultAccepted(mode, facs, st, phase);
      FrontPrefOriginal(flans0, st, x);
    }
    var p := st.flans[x].prefs;
    if |p| > 0 && p[0].Some? && p[0].value < |facs| && Serves(facs[p[0].value].kind, phase) {
      var f := p[0].value;
      var v := Prefers(mode, facs, st.flans, st.queue, f, x);
      if v.Evict? {
        MineSound(mode, st.flans, HogsOf(st.queue, f), st.flans[x].holding);
        assert v.rival in HogsOf(st.queue, f);
        assert Claim(v.rival, f) in st.queue;
      }
    }
  }

  /** `target instanceof type` for a preference that names a facility. */
  predicate ServesPref(facs: seq<Facility>, p: Option<FacId>, phase: Matching.Phase) {
    p.Some? && p.value < |facs| && Serves(facs[p.value].kind, phase)
  }

  /** How many of its initial preferences flan `x` has used up. */
  function Tried(flans0: seq<Flan>, flans: seq<Flan>, x: HogId): int
    requires x < |flans0| && x < |flans|
  {
    |flans0[x].prefs| - |flans[x].prefs|
  }

  /** `prefers` would not say `true` to flan `x` for `f` against queue `q`: it has as many of its kind queued as room. */
  ghost predicate Full(mode: Sameness, facs: seq<Facility>, flans: seq<Flan>, q: seq<Claim>, f: FacId, x: HogId)
  {
    && Wired(facs) && f < |facs| && x < |flans| && ClaimsInRange(q, |flans|, |facs|)
    && |Mine(mode, flans, HogsOf(q, f), flans[x].holding)| >= Capacity(facs, f, NameOf(flans[x].holding))
  }

  /** Each of the first `k` preferences of `x` that serves the phase is full against `q`. */
  ghost predicate TriedFull(mode: Sameness, facs: seq<Facility>, flans0: seq<Flan>, q: seq<Claim>,
                            phase: Matching.Phase, x: HogId, k: int)
    requires x < |flans0|
  {
    forall i :: 0 <= i < k && i < |flans0[x].prefs| && ServesPref(facs, flans0[x].prefs[i], phase) ==>
      Full(mode, facs, flans0, q, flans0[x].prefs[i].value, x)
  }

  /** After `k` preferences, `x` has tried all of them, or the last one it tried serves the phase. */
  ghost predicate LastTried(facs: seq<Facility>, flans0: seq<Flan>, phase: Matching.Phase, x: HogId, k: int)
    requires x < |flans0|
  {
    k == |flans0[x].prefs| || (0 < k <= |flans0[x].prefs| && ServesPref(facs, flans0[x].prefs[k - 1], phase))
  }

  /**
    Flan `x` gave up after its first `k` preferences: each of them that serves
    the phase had no room for it, and it either tried them all or was turned
    away by the last one it tried.
  */
  ghost predicate GaveUpAt(mode: Sameness, facs: seq<Facility>, flans0: seq<Flan>, q: seq<Claim>,
                           phase: Matching.Phase, x: HogId, k: nat)
  {
    x < |flans0| && k <= |flans0[x].prefs| && TriedFull(mode, facs, flans0, q, phase, x, k)
    && LastTried(facs, flans0, phase, x, k)
  }

  /**
    The progress a finished phase has made: every flan of the work list holds
    a claim, or gave up.  A phase that queues nothing meets this only when no
    flan has room at any facility it tries.
  */
  ghost predicate Settled(mode: Sameness, facs: seq<Facility>, flans0: seq<Flan>, work0: seq<HogId>, q: seq<Claim>,
                          phase: Matching.Phase)
  {
    forall x :: x in work0 ==> x in Claimants(q) || exists k: nat :: GaveUpAt(mode, facs, flans0, q, phase, x, k)
  }

  /** `Settled` while the phase runs: a flan without a claim found no room so far, and has given up once it left the list. */
  ghost predicate Progress(mode: Sameness, facs: seq<Facility>, flans0: seq<Flan>, work0: seq<HogId>, st: MatchState,
                           phase: Matching.Phase)
  {
    forall x :: 0 <= x < |flans0| && x < |st.flans| && x !in Claimants(st.queue) ==>
      && TriedFull(mode, facs, flans0, st.queue, phase, x, Tried(flans0, st.flans, x))
      && (x in work0 && x !in st.work ==> LastTried(facs, flans0, phase, x, Tried(flans0, st.flans, x)))
  }

  /** A facility with no room stays without room when a claim is appended. */
  lemma FullGrows(mode: Sameness, facs: seq<Facility>, flans: seq<Flan>, q: seq<Claim>, c: Claim, f: FacId, x: HogId)
    requires Full(mode, facs, flans, q, f, x) && c.hog < |flans| && c.fac < |facs|
    ensures Full(mode, facs, flans, q + [c], f, x)
  {
    var q' := q + [c];
    assert ClaimsInRange(q', |flans|, |facs|) by {
      forall d | d in q' ensures d.hog < |flans| && d.fac < |facs| {
        if d != c { assert d in q; }
      }
    }
    HogsOfAppend(q, c, f);
    MineAppend(mode, flans, HogsOf(q, f), c.hog, flans[x].holding);
    if c.fac != f {
      assert HogsOf(q', f) == HogsOf(q, f);
    }
  }

  /** `TriedFull` survives the queue growing by at most one claim. */
  lemma TriedFullGrows(mode: Sameness, facs: seq<Facility>, flans0: seq<Flan>, q: seq<Claim>, q': seq<Claim>,
                       c: Claim, phase: Matching.Phase, x: HogId, k: int)
    requires x < |flans0|
    requires q' == q || (q' == q + [c] && c.hog < |flans0| && c.fac < |facs|)
    requires TriedFull(mode, facs, flans0, q, phase, x, k)
    ensures TriedFull(mode, facs, flans0, q', phase, x, k)
  {
    var p0 := flans0[x].prefs;
    forall i | 0 <= i < k && i < |p0| && ServesPref(facs, p0[i], phase)
      ensures Full(mode, facs, flans0, q', p0[i].value, x)
    {
      if q' != q {
        FullGrows(mode, facs, flans0, q, c, p0[i].value, x);
      }
    }
  }

  /** `TriedFull` for `k` preferences extends to `k + 1` when preference `k` is full or does not serve. */
  lemma TriedFullExtend(mode: Sameness, facs: seq<Facility>, flans0: seq<Flan>, q: seq<Claim>, phase: Matching.Phase,
                        x: HogId, k: int)
    requires x < |flans0| && TriedFull(mode, facs, flans0, q, phase, x, k)
    requires 0 <= k < |flans0[x].prefs| && ServesPref(facs, flans0[x].prefs[k], phase) ==>
               Full(mode, facs, flans0, q, flans0[x].prefs[k].value, x)
    ensures TriedFull(mode, facs, flans0, q, phase, x, k + 1)
  {
  }

  /** The front flan, if left without a claim, used up a preference that had no room or was of the wrong kind. */
  lemma FrontProgress(mode: Sameness, facs: seq<Facility>, flans0: seq<Flan>, st: MatchState, phase: Matching.Phase)
    requires WellFormed(facs, st) && |st.work| > 0 && |st.flans[st.work[0]].prefs| > 0
    requires TracksFlans(flans0, st)
    requires st.work[0] !in Claimants(ConsultNext(mode, facs, st, phase).queue)
    ensures var x := st.work[0];
            var r := ConsultNext(mode, facs, st, phase);
            && Tried(flans0, r.flans, x) == Tried(flans0, st.flans, x) + 1
            && (ServesPref(facs, st.flans[x].prefs[0], phase) ==>
                  && r.queue == st.queue
                  && Full(mode, facs, flans0, st.queue, st.flans[x].prefs[0].value, x))
            && (x !in r.work ==> ServesPref(facs, st.flans[x].prefs[0], phase))
            && flans0[x].prefs[Tried(flans0, st.flans, x)] == st.flans[x].prefs[0]
  {
    var x := st.work[0];
    var r := ConsultNext(mode, facs, st, phase);
    var p := st.flans[x].prefs;
    var p0 := flans0[x].prefs;
    assert p == p0[|p0| - |p|..];
    assert p0[|p0| - |p|] == p[0];
    assert p[0] in p;
    if ServesPref(facs, p[0], phase) {
      var f := p[0].value;
      assert Claim(x, f) !in r.queue;
      MineCargoOnly(mode, flans0, st.flans, HogsOf(st.queue, f), st.flans[x].holding);
      assert st.flans[x].holding == flans0[x].holding;
    } else {
      assert x in r.work;
    }
  }

  /** `ConsultKeepsProgress` for one flan without a claim. */
  lemma ProgressAt(mode: Sameness, facs: seq<Facility>, flans0: seq<Flan>, work0: seq<HogId>, st: MatchState,
                   phase: Matching.Phase, y: HogId)
    requires WellFormed(facs, st) && |st.work| > 0
    requires TracksFlans(flans0, st) && TracksFlans(flans0, ConsultNext(mode, facs, st, phase))
    requires y < |flans0| && y !in Claimants(ConsultNext(mode, facs, st, phase).queue)
    requires TriedFull(mode, facs, flans0, st.queue, phase, y, Tried(flans0, st.flans, y))
    requires y in work0 && y !in st.work ==> LastTried(facs, flans0, phase, y, Tried(flans0, st.flans, y))
    ensures var r := ConsultNext(mode, facs, st, phase);
            && TriedFull(mode, facs, flans0, r.queue, phase, y, Tried(flans0, r.flans, y))
            && (y in work0 && y !in r.work ==> LastTried(facs, flans0, phase, y, Tried(flans0, r.flans, y)))
  {
    var r := ConsultNext(mode, facs, st, phase);
    var x := st.work[0];
    var k := Tried(flans0, st.flans, y);
    if r.queue != st.queue {
      ConsultAccepted(mode, facs, st, phase);
      TriedFullGrows(mode, facs, flans0, st.queue, r.queue, Claim(x, st.flans[x].prefs[0].value), phase, y, k);
    }
    if y != x {
      assert r.flans[y] == st.flans[y];
      assert y in st.work ==> y in r.work by {
        if y in st.work {
          var i :| 0 <= i < |st.work| && st.work[i] == y;
          assert st.work[1..][i - 1] == y;
        }
      }
    } else if |st.flans[x].prefs| > 0 {
      FrontProgress(mode, facs, flans0, st, phase);
      TriedFullExtend(mode, facs, flans0, r.queue, phase, x, k);
    }
  }

  /** One consultation keeps `Progress`. */
  lemma ConsultKeepsProgress(mode: Sameness, facs: seq<Facility>, flans0: seq<Flan>, work0: seq<HogId>, st: MatchState,
                             phase: Matching.Phase)
    requires WellFormed(facs, st) && |st.work| > 0
    requires TracksFlans(flans0, st) && Progress(mode, facs, flans0, work0, st, phase)
    ensures Progress(mode, facs, flans0, work0, ConsultNext(mode, facs, st, phase), phase)
  {
    var r := ConsultNext(mode, facs, st, phase);
    ConsultKeepsFlans(mode, facs, flans0, st, phase);
    if r.queue != st.queue {
      ConsultAccepted(mode, facs, st, phase);
      ClaimantsAppend(st.queue, Claim(st.work[0], st.flans[st.work[0]].prefs[0].value));
    }
    forall y | 0 <= y < |flans0| && y < |r.flans| && y !in Claimants(r.queue)
      ensures && TriedFull(mode, facs, flans0, r.queue, phase, y, Tried(flans0, r.flans, y))
              && (y in work0 && y !in r.work ==> LastTried(facs, flans0, phase, y, Tried(flans0, r.flans, y)))
    {
      assert y !in Claimants(st.queue);
      ProgressAt(mode, facs, flans0, work0, st, phase, y);
    }
  }

  /** A finished phase that kept `Progress` is `Settled`. */
  lemma ProgressSettles(mode: Sameness, facs: seq<Facility>, flans0: seq<Flan>, work0: seq<HogId>, st: MatchState,
                        phase: Matching.Phase)
    requires st.work == [] && TracksFlans(flans0, st) && Progress(mode, facs, flans0, work0, st, phase)
    requires forall x :: x in work0 ==> x < |flans0|
    ensures Settled(mode, facs, flans0, work0, st.queue, phase)
  {
    forall x | x in work0 && x !in Claimants(st.queue)
      ensures exists k: nat :: GaveUpAt(mode, facs, flans0, st.queue, phase, x, k)
    {
      var k := Tried(flans0, st.flans, x);
      assert GaveUpAt(mode, facs, flans0, st.queue, phase, x, k);
    }
  }

  /** Against an empty hand, `===` and the comparison of names agree: both ask whether the other is empty too. */
  lemma {:induction false} MineEmptyHanded(flans: seq<Flan>, list: seq<HogId>)
    ensures Mine(ByIdentity, flans, list, None) == Mine(ByName, flans, list, None)
  {
    if |list| > 0 {
      MineEmptyHanded(flans, list[1..]);
    }
  }

  /** So a flan carrying nothing is consulted alike whichever comparison `prefers` uses. */
  lemma ConsultEmptyHanded(facs: seq<Facility>, st: MatchState, phase: Matching.Phase)
    requires WellFormed(facs, st) && |st.work| > 0 && st.flans[st.work[0]].holding.None?
    ensures ConsultNext(ByIdentity, facs, st, phase) == ConsultNext(ByName, facs, st, phase)
  {
    var x := st.work[0];
    var p := st.flans[x].prefs;
    if |p| > 0 && p[0].Some? && p[0].value < |facs| && Serves(facs[p[0].value].kind, phase) {
      MineEmptyHanded(st.flans, HogsOf(st.queue, p[0].value));
    }
  }

  /** Every flan of `work` set out empty-handed. */
  ghost predicate EmptyHanded(flans: seq<Flan>, work: seq<HogId>) {
    forall x :: x in work ==> x < |flans| && flans[x].holding.None?
  }

  /**
    `while (flans.length > 0) this.consult_next(flans, type, queue)`, with
    `prefers` comparing cargo by `mode`: one matching phase, run until the
    work list is empty.  Compared by name the queue stays within every
    facility's capacity; as written (by identity) it does too when every
    flan of the work list is empty-handed, as in the pick-up phase, since
    then the two comparisons agree.
  */
  method RunPhase(mode: Sameness, facs: seq<Facility>, flans: seq<Flan>, work: seq<HogId>, phase: Matching.Phase)
    returns (st: MatchState)
    requires WellFormed(facs, MatchState(flans, work, []))
    ensures st.work == []
    ensures WellFormed(facs, st)
    ensures mode == ByName || EmptyHanded(flans, work) ==> WithinCapacity(facs, st)
    ensures Tracks(facs, flans, work, st, phase)
    ensures Settled(mode, facs, flans, work, st.queue, phase)
  {
    st := MatchState(flans, work, []);
    while |st.work| > 0
      invariant WellFormed(facs, st)
      invariant mode == ByName || EmptyHanded(flans, work) ==> WithinCapacity(facs, st)
      invariant Tracks(facs, flans, work, st, phase)
      invariant Progress(mode, facs, flans, work, st, phase)
      decreases PrefsLeft(st.flans), |st.work|
    {
      ConsultKeepsProgress(mode, facs, flans, work, st, phase);
      if mode == ByName || EmptyHanded(flans, work) {
        ConsultKeepsCapacity(facs, st, phase);
        if mode == ByIdentity {
          assert st.work[0] in st.work;
          ConsultEmptyHanded(facs, st, phase);
        }
      }
      ConsultKeepsTrack(mode, facs, flans, work, st, phase);
      st := ConsultNext(mode, facs, st, phase);
    }
    ProgressSettles(mode, facs, flans, work, st, phase);
  }

  /** The result of resolving pairs: facilities, flans and the next unused object identity. */
  datatype Outcome = Outcome(facs: seq<Facility>, flans: seq<Flan>, nextOid: nat)

  /**
    `interact_with(flan)` for one pair: a taker pushes the flan's cargo and
    leaves it empty-handed; a giver hands it a new `Resource` of its type and
    decrements `resource_count`.
  */
  function Interact(facs: seq<Facility>, flans: seq<Flan>, c: Claim, oid: nat): (r: Outcome)
    requires c.fac < |facs| && c.hog < |flans|
    ensures |r.facs| == |facs| && |r.flans| == |flans|
    ensures forall f :: 0 <= f < |facs| && f != c.fac ==> r.facs[f] == facs[f]
    ensures forall x :: 0 <= x < |flans| && x != c.hog ==> r.flans[x] == flans[x]
    ensures forall f :: 0 <= f < |facs| ==> r.facs[f].kind == facs[f].kind && r.facs[f].tilePrefs == facs[f].tilePrefs
    ensures r.flans[c.hog] == flans[c.hog].(holding := r.flans[c.hog].holding)
    ensures IsTaker(facs[c.fac].kind) ==>
              && r.facs[c.fac] == facs[c.fac].(holding := facs[c.fac].holding + [flans[c.hog].holding])
              && r.flans[c.hog].holding.None? && r.nextOid == oid
    ensures IsGiver(facs[c.fac].kind) ==>
              && r.facs[c.fac] == facs[c.fac].(count := facs[c.fac].count - 1)
              && r.flans[c.hog].holding == Some(Resource(oid, ResourceName(facs[c.fac].kind)))
              && r.nextOid == oid + 1
  {
    var fac := facs[c.fac];
    var flan := flans[c.hog];
    if IsTaker(fac.kind) then
      Outcome(facs[c.fac := fac.(holding := fac.holding + [flan.holding])], flans[c.hog := flan.(holding := None)], oid)
    else
      Outcome(facs[c.fac := fac.(count := fac.count - 1)],
              flans[c.hog := flan.(holding := Some(Resource(oid, ResourceName(fac.kind))))], oid + 1)
  }

  /** `queue.resolve()`: every pair interacts, in queue order. */
  function Resolve(facs: seq<Facility>, flans: seq<Flan>, q: seq<Claim>, oid: nat): (r: Outcome)
    requires ClaimsInRange(q, |flans|, |facs|)
    ensures |r.facs| == |facs| && |r.flans| == |flans|
    ensures forall f :: 0 <= f < |facs| ==> r.facs[f].kind == facs[f].kind && r.facs[f].tilePrefs == facs[f].tilePrefs
    ensures forall x :: 0 <= x < |flans| ==> r.flans[x] == flans[x].(holding := r.flans[x].holding)
    decreases |q|
  {
    if |q| == 0 then Outcome(facs, flans, oid)
    else
      TailInRange(q, |flans|, |facs|);
      var s := Interact(facs, flans, q[0], oid);
      Resolve(s.facs, s.flans, q[1..], s.nextOid)
  }

  /** A facility nobody queued for comes out of the resolution unchanged. */
  lemma {:induction false} ResolveUntouched(facs: seq<Facility>, flans: seq<Flan>, q: seq<Claim>, oid: nat, f: FacId)
    requires ClaimsInRange(q, |flans|, |facs|) && f < |facs| && HogsOf(q, f) == []
    ensures Resolve(facs, flans, q, oid).facs[f] == facs[f]
    decreases |q|
  {
    if |q| > 0 {
      TailInRange(q, |flans|, |facs|);
      HogsOfTail(q, f);
      var s := Interact(facs, flans, q[0], oid);
      ResolveUntouched(s.facs, s.flans, q[1..], s.nextOid, f);
    }
  }

  /** A flan with no queued pair comes out of the resolution unchanged. */
  lemma {:induction false} ResolveIdleFlan(facs: seq<Facility>, flans: seq<Flan>, q: seq<Claim>, oid: nat, x: HogId)
    requires ClaimsInRange(q, |flans|, |facs|) && x < |flans|
    requires forall c :: c in q ==> c.hog != x
    ensures Resolve(facs, flans, q, oid).flans[x] == flans[x]
    decreases |q|
  {
    if |q| > 0 {
      TailInRange(q, |flans|, |facs|);
      assert q[0] in q;
      var s := Interact(facs, flans, q[0], oid);
      assert forall c :: c in q[1..] ==> c in q;
      ResolveIdleFlan(s.facs, s.flans, q[1..], s.nextOid, x);
    }
  }

  /** `give_to` decrements a giver's `resource_count` by exactly one per pair queued for it. */
  lemma {:induction false} ResolveGiverCount(facs: seq<Facility>, flans: seq<Flan>, q: seq<Claim>, oid: nat, f: FacId)
    requires ClaimsInRange(q, |flans|, |facs|) && f < |facs| && IsGiver(facs[f].kind)
    ensures Resolve(facs, flans, q, oid).facs[f] == facs[f].(count := facs[f].count - |HogsOf(q, f)|)
    decreases |q|
  {
    if |q| > 0 {
      TailInRange(q, |flans|, |facs|);
      HogsOfTail(q, f);
      var s := Interact(facs, flans, q[0], oid);
      ResolveGiverCount(s.facs, s.flans, q[1..], s.nextOid, f);
    }
  }

  /** A taker keeps what it held and gains exactly one entry per pair queued for it. */
  lemma {:induction false} ResolveTakerGrows(facs: seq<Facility>, flans: seq<Flan>, q: seq<Claim>, oid: nat, f: FacId)
    requires ClaimsInRange(q, |flans|, |facs|) && f < |facs| && IsTaker(facs[f].kind)
    ensures var g := Resolve(facs, flans, q, oid).facs[f];
            && g.count == facs[f].count
            && |g.holding| == |facs[f].holding| + |HogsOf(q, f)|
            && g.holding[..|facs[f].holding|] == facs[f].holding
    decreases |q|
  {
    if |q| > 0 {
      TailInRange(q, |flans|, |facs|);
      HogsOfTail(q, f);
      var s := Interact(facs, flans, q[0], oid);
      ResolveTakerGrows(s.facs, s.flans, q[1..], s.nextOid, f);
      var h := Resolve(facs, flans, q, oid).facs[f].holding;
      if q[0].fac == f {
        assert h[..|s.facs[f].holding|][..|facs[f].holding|] == h[..|facs[f].holding|];
      }
    }
  }

  /** Each flan carries what it carried at the start of the phase, or nothing. */
  ghost predicate CargoFrom(flans0: seq<Flan>, flans: seq<Flan>) {
    |flans| == |flans0| && forall x :: 0 <= x < |flans| ==> flans[x].holding == flans0[x].holding || flans[x].holding.None?
  }

  /** Every queued pair is with a taker. */
  ghost predicate AllToTakers(facs: seq<Facility>, q: seq<Claim>) {
    forall c :: c in q ==> c.fac < |facs| && IsTaker(facs[c.fac].kind)
  }

  /**
    Resolving pairs with takers adds to a facility's count of goods named `n`
    at most one per pair whose flan set out carrying such a good.
  */
  lemma {:induction false} ResolveNameCount(facs: seq<Facility>, flans0: seq<Flan>, flans: seq<Flan>, q: seq<Claim>,
                                            oid: nat, f: FacId, n: string)
    requires ClaimsInRange(q, |flans|, |facs|) && f < |facs|
    requires AllToTakers(facs, q) && CargoFrom(flans0, flans)
    ensures NumberHeld(Resolve(facs, flans, q, oid).facs[f].holding, n) <=
              NumberHeld(facs[f].holding, n) + |Mine(ByName, flans0, HogsOf(q, f), Some(Resource(0, n)))|
    decreases |q|
  {
    if |q| > 0 {
      TailInRange(q, |flans|, |facs|);
      HogsOfTail(q, f);
      var c := q[0];
      assert c in q;
      var s := Interact(facs, flans, c, oid);
      assert AllToTakers(s.facs, q[1..]) by {
        forall c' | c' in q[1..] ensures c'.fac < |s.facs| && IsTaker(s.facs[c'.fac].kind) {
          assert c' in q;
        }
      }
      ResolveNameCount(s.facs, flans0, s.flans, q[1..], s.nextOid, f, n);
      var rest := HogsOf(q[1..], f);
      if c.fac == f {
        assert HogsOf(q, f) == [c.hog] + rest;
        assert ([c.hog] + rest)[1..] == rest;
        NumberHeldConcat(facs[f].holding, [flans[c.hog].holding], n);
      } else {
        assert HogsOf(q, f) == rest;
      }
    }
  }

  /** Appending never lowers a count. */
  lemma NumberHeldGrows(holding: seq<Option<Resource>>, h: seq<Option<Resource>>, name: string)
    requires |holding| <= |h| && h[..|holding|] == holding
    ensures NumberHeld(holding, name) <= NumberHeld(h, name)
  {
    assert h == holding + h[|holding|..];
    NumberHeldConcat(holding, h[|holding|..], name);
  }

  /** A flan is always in its own by-name filter. */
  lemma {:induction false} MineHasSelf(flans: seq<Flan>, list: seq<HogId>, x: HogId)
    requires x in list && x < |flans|
    ensures x in Mine(ByName, flans, list, flans[x].holding)
  {
    if list[0] != x {
      MineHasSelf(flans, list[1..], x);
    }
  }

  /** When every listed flan holds something of the same name, the filter keeps them all. */
  lemma {:induction false} MineAll(flans: seq<Flan>, list: seq<HogId>, h: Option<Resource>)
    requires forall x :: x in list ==> x < |flans| && NameOf(flans[x].holding) == NameOf(h)
    ensures Mine(ByName, flans, list, h) == list
  {
    if |list| > 0 {
      assert list[0] in list;
      assert forall x :: x in list[1..] ==> x in list;
      MineAll(flans, list[1..], h);
      calc {
        Mine(ByName, flans, list, h);
        [list[0]] + Mine(ByName, flans, list[1..], h);
        [list[0]] + list[1..];
        list;
      }
    }
  }

  /** The by-name invariant bounds the claims on `f` by flans carrying goods named `n`. */
  lemma NamedBound(facs: seq<Facility>, st: MatchState, f: FacId, n: string)
    requires WellFormed(facs, st) && WithinCapacity(facs, st) && f < |facs|
    ensures |Mine(ByName, st.flans, HogsOf(st.queue, f), Some(Resource(0, n)))|
              <= Matching.Max0(Capacity(facs, f, Some(n)))
  {
    var list := Mine(ByName, st.flans, HogsOf(st.queue, f), Some(Resource(0, n)));
    if |list| > 0 {
      var x := list[0];
      assert x in list;
      MineSound(ByName, st.flans, HogsOf(st.queue, f), Some(Resource(0, n)));
      assert NameOf(st.flans[x].holding) == Some(n);
      MineByNameKey(st.flans, HogsOf(st.queue, f), Some(Resource(0, n)), st.flans[x].holding);
    }
  }

  /** A facility with no capacity for anything gets no claims. */
  lemma NoCapacityNoClaims(facs: seq<Facility>, st: MatchState, f: FacId)
    requires WellFormed(facs, st) && WithinCapacity(facs, st) && f < |facs|
    requires forall key :: Capacity(facs, f, key) <= 0
    ensures HogsOf(st.queue, f) == []
  {
    if |HogsOf(st.queue, f)| > 0 {
      var x := HogsOf(st.queue, f)[0];
      assert x in HogsOf(st.queue, f);
      MineHasSelf(st.flans, HogsOf(st.queue, f), x);
    }
  }

  /** No shop input takes more of an ingredient than its recipe still needs, and nothing while its output is stocked. */
  ghost predicate NoOverfill(facs: seq<Facility>, facs': seq<Facility>)
    requires |facs'| == |facs| && Wired(facs)
  {
    forall f, n :: 0 <= f < |facs| && facs[f].kind.ShopInput? ==>
      Fits(facs, f, n, facs'[f].holding)
  }

  /**
    Shop input `f`, now holding `h`, took in no good named `n` while its
    output was stocked, none its recipe does not use, and no more than the
    recipe still needed.
  */
  ghost predicate Fits(facs: seq<Facility>, f: FacId, n: string, h: seq<Option<Resource>>)
    requires f < |facs| && Wired(facs) && facs[f].kind.ShopInput?
  {
    var part := Facilities.RecipeRequires(facs[f].kind.recipe.input, n);
    && (facs[facs[f].kind.output].count > 0 ==> h == facs[f].holding)
    && (part.None? ==> NumberHeld(h, n) == NumberHeld(facs[f].holding, n))
    && (part.Some? ==> NumberHeld(h, n) <= Matching.Max(NumberHeld(facs[f].holding, n), part.value.amount))
  }

  /** One shop input and one name of `NoOverfill`, for a drop-off resolution. */
  lemma ShopInputCount(facs: seq<Facility>, st: MatchState, oid: nat, f: FacId, n: string)
    requires WellFormed(facs, st) && WithinCapacity(facs, st)
    requires AllToTakers(facs, st.queue) && f < |facs| && facs[f].kind.ShopInput?
    ensures Fits(facs, f, n, Resolve(facs, st.flans, st.queue, oid).facs[f].holding)
  {
    var h := Resolve(facs, st.flans, st.queue, oid).facs[f].holding;
    if facs[facs[f].kind.output].count > 0 {
      NoCapacityNoClaims(facs, st, f);
      ResolveUntouched(facs, st.flans, st.queue, oid, f);
    }
    ResolveNameCount(facs, st.flans, st.flans, st.queue, oid, f, n);
    NamedBound(facs, st, f, n);
    ResolveTakerGrows(facs, st.flans, st.queue, oid, f);
    NumberHeldGrows(facs[f].holding, h, n);
  }

  /** A giver never has more pick-up claims than its `resource_count`, when all claimants are empty-handed. */
  lemma PickUpBound(facs: seq<Facility>, flans0: seq<Flan>, work0: seq<HogId>, st: MatchState, f: FacId)
    requires WellFormed(facs, st) && WithinCapacity(facs, st) && f < |facs| && IsGiver(facs[f].kind)
    requires Tracks(facs, flans0, work0, st, Matching.PickUp)
    requires forall x :: x in work0 ==> x < |flans0| && flans0[x].holding.None?
    ensures |HogsOf(st.queue, f)| <= Matching.Max0(facs[f].count)
  {
    var list := HogsOf(st.queue, f);
    if |list| > 0 {
      HogsOfInRange(st.queue, f, |st.flans|, |facs|);
      forall x | x in list ensures x < |st.flans| && st.flans[x].holding.None? {
        assert Claim(x, f) in st.queue;
      }
      MineAll(st.flans, list, None);
      var x := list[0];
      assert st.flans[x].holding.None?;
    }
  }

  /** What the drop-off resolution does to the facilities: only takers change, each by one entry per claim. */
  lemma DropOffFacts(facs: seq<Facility>, flans0: seq<Flan>, work0: seq<HogId>, st: MatchState, oid: nat)
    requires WellFormed(facs, st)
    requires Tracks(facs, flans0, work0, st, Matching.DropOff)
    ensures var r := Resolve(facs, st.flans, st.queue, oid).facs;
            && (forall f :: 0 <= f < |facs| && IsGiver(facs[f].kind) ==> r[f] == facs[f])
            && (forall f :: 0 <= f < |facs| && IsTaker(facs[f].kind) ==>
                  && r[f] == facs[f].(holding := r[f].holding)
                  && |r[f].holding| == |facs[f].holding| + |HogsOf(st.queue, f)|
                  && Matching.Extends(r[f].holding, facs[f].holding))
  {
    var r := Resolve(facs, st.flans, st.queue, oid).facs;
    forall f | 0 <= f < |facs| && IsGiver(facs[f].kind) ensures r[f] == facs[f] {
      Matching.NoneQueuedFor(st.queue, f);
      ResolveUntouched(facs, st.flans, st.queue, oid, f);
    }
    forall f | 0 <= f < |facs| && IsTaker(facs[f].kind)
      ensures && r[f] == facs[f].(holding := r[f].holding)
              && |r[f].holding| == |facs[f].holding| + |HogsOf(st.queue, f)|
              && Matching.Extends(r[f].holding, facs[f].holding)
    {
      ResolveTakerGrows(facs, st.flans, st.queue, oid, f);
    }
  }

  /** The drop-off resolution overfills no shop input. */
  lemma DropOffNoOverfill(facs: seq<Facility>, flans0: seq<Flan>, work0: seq<HogId>, st: MatchState, oid: nat)
    requires WellFormed(facs, st) && WithinCapacity(facs, st)
    requires Tracks(facs, flans0, work0, st, Matching.DropOff)
    ensures NoOverfill(facs, Resolve(facs, st.flans, st.queue, oid).facs)
  {
    var r := Resolve(facs, st.flans, st.queue, oid).facs;
    assert AllToTakers(facs, st.queue);
    forall f, n | 0 <= f < |facs| && facs[f].kind.ShopInput? ensures Fits(facs, f, n, r[f].holding) {
      ShopInputCount(facs, st, oid, f, n);
    }
  }

  /** What the pick-up resolution does to the facilities: only givers change, each by one per claim, never below zero. */
  lemma PickUpFacts(facs: seq<Facility>, flans0: seq<Flan>, work0: seq<HogId>, st: MatchState, oid: nat)
    requires WellFormed(facs, st) && WithinCapacity(facs, st)
    requires Tracks(facs, flans0, work0, st, Matching.PickUp)
    requires forall x :: x in work0 ==> x < |flans0| && flans0[x].holding.None?
    ensures var r := Resolve(facs, st.flans, st.queue, oid).facs;
            && (forall f :: 0 <= f < |facs| && IsTaker(facs[f].kind) ==> r[f] == facs[f])
            && (forall f :: 0 <= f < |facs| && IsGiver(facs[f].kind) ==>
                  && r[f] == facs[f].(count := facs[f].count - |HogsOf(st.queue, f)|)
                  && |HogsOf(st.queue, f)| <= Matching.Max0(facs[f].count))
  {
    var r := Resolve(facs, st.flans, st.queue, oid).facs;
    forall f | 0 <= f < |facs| && IsTaker(facs[f].kind) ensures r[f] == facs[f] {
      Matching.NoneQueuedFor(st.queue, f);
      ResolveUntouched(facs, st.flans, st.queue, oid, f);
    }
    forall f | 0 <= f < |facs| && IsGiver(facs[f].kind)
      ensures && r[f] == facs[f].(count := facs[f].count - |HogsOf(st.queue, f)|)
              && |HogsOf(st.queue, f)| <= Matching.Max0(facs[f].count)
    {
      PickUpBound(facs, flans0, work0, st, f);
      ResolveGiverCount(facs, st.flans, st.queue, oid, f);
    }
  }

  /** A flan outside a phase's work list is not touched by its resolution. */
  lemma OutsideUntouched(facs: seq<Facility>, flans0: seq<Flan>, work0: seq<HogId>, st: MatchState, oid: nat,
                         phase: Matching.Phase, x: HogId)
    requires ClaimsInRange(st.queue, |st.flans|, |facs|)
    requires Tracks(facs, flans0, work0, st, phase) && x < |st.flans| && x !in work0
    ensures Resolve(facs, st.flans, st.queue, oid).flans[x] == flans0[x].(prefs := st.flans[x].prefs)
  {
    ResolveIdleFlan(facs, st.flans, st.queue, oid, x);
  }

  /** Every flan stands on a board tile. */
  ghost predicate OnBoard(b: Board, flans: seq<Flan>) {
    forall x :: 0 <= x < |flans| ==> b.IsTile(flans[x].tile)
  }

  /** `reset_interact_preferences()`: the facilities in front, to the right and to the left. */
  function ResetPrefs(b: Board, facAt: seq<Option<FacId>>, flan: Flan): (r: Flan)
    requires b.Valid() && b.IsTile(flan.tile) && |facAt| == b.Size()
    ensures r == flan.(prefs := Matching.NeighborPrefs(b, facAt, flan.tile, flan.dir))
  {
    flan.(prefs := Matching.NeighborPrefs(b, facAt, flan.tile, flan.dir))
  }

  /** The preference reset for every listed flan; the others are left alone. */
  function ResetListed(b: Board, facAt: seq<Option<FacId>>, flans: seq<Flan>, list: seq<HogId>): (r: seq<Flan>)
    requires b.Valid() && |facAt| == b.Size() && OnBoard(b, flans)
    requires forall i :: 0 <= i < |list| ==> list[i] < |flans|
    ensures |r| == |flans|
    ensures forall x :: 0 <= x < |flans| && x !in list ==> r[x] == flans[x]
    ensures forall x :: 0 <= x < |flans| && x in list ==> r[x] == ResetPrefs(b, facAt, flans[x])
    decreases |list|
  {
    if |list| == 0 then flans
    else
      var x := list[|list| - 1];
      var init := list[..|list| - 1];
      var r := ResetListed(b, facAt, flans, init);
      assert forall y :: y in list <==> y in init || y == x;
      r[x := ResetPrefs(b, facAt, flans[x])]
  }

  /** A preference reset keeps preferences within the facilities when `facAt` is. */
  lemma ResetInRange(b: Board, facAt: seq<Option<FacId>>, flans: seq<Flan>, list: seq<HogId>, nfacs: nat)
    requires b.Valid() && |facAt| == b.Size() && OnBoard(b, flans) && Matching.FacAtInRange(facAt, nfacs)
    requires forall i :: 0 <= i < |list| ==> list[i] < |flans|
    requires forall x, p :: 0 <= x < |flans| && x !in list && p in flans[x].prefs && p.Some? ==> p.value < nfacs
    ensures PrefsInRange(ResetListed(b, facAt, flans, list), nfacs)
  {
    var r := ResetListed(b, facAt, flans, list);
    forall x, p | 0 <= x < |r| && p in r[x].prefs && p.Some? ensures p.value < nfacs {
      if x in list {
        Matching.NeighborPrefsInRange(b, facAt, flans[x].tile, flans[x].dir, nfacs);
      }
    }
  }

  /**
    `board.flans.filter(flan => flan.hopped_from)` over the first `n` flans,
    in the order of `flans`, which is the board's order only when the flans
    are given in that order.
  */
  function Active(flans: seq<Flan>, n: nat): (r: seq<HogId>)
    requires n <= |flans|
    ensures forall i :: 0 <= i < |r| ==> r[i] < n && flans[r[i]].hopped
    ensures forall x :: 0 <= x < n && flans[x].hopped ==> x in r
    ensures forall i, j :: 0 <= i < j < |r| ==> r[i] < r[j]
  {
    if n == 0 then []
    else
      var r := Active(flans, n - 1);
      if flans[n - 1].hopped then r + [n - 1] else r
  }

  /** `list.filter(flan => flan.holding)` (`cargo`) or `list.filter(flan => !flan.holding)` (`!cargo`). */
  function WithCargo(flans: seq<Flan>, list: seq<HogId>, cargo: bool): (r: seq<HogId>)
    requires forall i :: 0 <= i < |list| ==> list[i] < |flans|
    ensures forall i :: 0 <= i < |r| ==> r[i] in list && flans[r[i]].holding.Some? == cargo
    ensures forall i :: 0 <= i < |list| && flans[list[i]].holding.Some? == cargo ==> list[i] in r
  {
    if |list| == 0 then []
    else
      var rest := WithCargo(flans, list[1..], cargo);
      assert forall i :: 0 <= i < |rest| ==> rest[i] in list;
      assert forall i :: 1 <= i < |list| ==> list[i] == list[1..][i - 1];
      (if flans[list[0]].holding.Some? == cargo then [list[0]] else []) + rest
  }

  /** Facility kinds and tile preferences are the same. */
  ghost predicate SameFacilities(facs: seq<Facility>, facs': seq<Facility>) {
    |facs'| == |facs| && forall f :: 0 <= f < |facs| ==> facs'[f].kind == facs[f].kind && facs'[f].tilePrefs == facs[f].tilePrefs
  }

  /** Only the flans' cargo and preferences differ. */
  ghost predicate SameFlans(flans: seq<Flan>, flans': seq<Flan>) {
    |flans'| == |flans| && forall x :: 0 <= x < |flans| ==> flans'[x] == flans[x].(holding := flans'[x].holding, prefs := flans'[x].prefs)
  }

  /** A taker after `n` pairs: only its holding changed, by `n` entries after the old ones. */
  ghost predicate TakerGains(a: Facility, b: Facility, n: nat) {
    b == a.(holding := b.holding) && |b.holding| == |a.holding| + n && Matching.Extends(b.holding, a.holding)
  }

  /** A giver after `n` pairs: only `resource_count` changed, down by `n`, and it had that many. */
  ghost predicate GiverGives(a: Facility, b: Facility, n: nat) {
    b == a.(count := a.count - n) && n <= Matching.Max0(a.count)
  }

  /** Drop-off with queue `q`: givers untouched, each taker gaining one entry per pair. */
  ghost predicate DropOffEffect(facs: seq<Facility>, facs': seq<Facility>, q: seq<Claim>) {
    && SameFacilities(facs, facs')
    && (forall f :: 0 <= f < |facs| && IsGiver(facs[f].kind) ==> facs'[f] == facs[f])
    && (forall f :: 0 <= f < |facs| && IsTaker(facs[f].kind) ==> TakerGains(facs[f], facs'[f], |HogsOf(q, f)|))
  }

  /** Pick-up with queue `q`: takers untouched, each giver giving once per pair. */
  ghost predicate PickUpEffect(facs: seq<Facility>, facs': seq<Facility>, q: seq<Claim>) {
    && SameFacilities(facs, facs')
    && (forall f :: 0 <= f < |facs| && IsTaker(facs[f].kind) ==> facs'[f] == facs[f])
    && (forall f :: 0 <= f < |facs| && IsGiver(facs[f].kind) ==> GiverGives(facs[f], facs'[f], |HogsOf(q, f)|))
  }

  /** Both phases: each taker gains one entry per drop-off pair, each giver gives once per pick-up pair. */
  ghost predicate MatchEffect(facs: seq<Facility>, facs': seq<Facility>, hq: seq<Claim>, sq: seq<Claim>) {
    && SameFacilities(facs, facs')
    && (forall f :: 0 <= f < |facs| && IsGiver(facs[f].kind) ==> GiverGives(facs[f], facs'[f], |HogsOf(sq, f)|))
    && (forall f :: 0 <= f < |facs| && IsTaker(facs[f].kind) ==> TakerGains(facs[f], facs'[f], |HogsOf(hq, f)|))
  }

  /** Only cargo and preferences change, and the flans outside `active` keep their cargo. */
  ghost predicate CargoKept(flans: seq<Flan>, flans': seq<Flan>, active: seq<HogId>) {
    && SameFlans(flans, flans')
    && forall x :: 0 <= x < |flans| && x !in active ==> flans'[x].holding == flans[x].holding
  }

  /**
    The drop-off half of `match`: the active flans carrying something are
    matched with takers and the pairs resolved.
  */
  method DropOffHalf(mode: Sameness, facs: seq<Facility>, flans: seq<Flan>, active: seq<HogId>, oid: nat)
    returns (facs': seq<Facility>, flans': seq<Flan>, holderQueue: seq<Claim>)
    requires WellFormed(facs, MatchState(flans, active, []))
    ensures CargoKept(flans, flans', active)
    ensures DropOffEffect(facs, facs', holderQueue)
    ensures mode == ByName ==> NoOverfill(facs, facs')
    ensures PrefsInRange(flans', |facs|)
    ensures forall c :: c in holderQueue ==>
              && c.hog < |flans| && c.hog in active && flans[c.hog].holding.Some?
              && c.fac < |facs| && IsTaker(facs[c.fac].kind) && Some(c.fac) in flans[c.hog].prefs
    ensures Settled(mode, facs, flans, WithCargo(flans, active, true), holderQueue, Matching.DropOff)
  {
    var holders := WithCargo(flans, active, true);
    var st := RunPhase(mode, facs, flans, holders, Matching.DropOff);
    DropOffFacts(facs, flans, holders, st, oid);
    if mode == ByName {
      DropOffNoOverfill(facs, flans, holders, st, oid);
    }
    var r := Resolve(facs, st.flans, st.queue, oid);
    facs', flans', holderQueue := r.facs, r.flans, st.queue;
    forall x | 0 <= x < |flans| && x !in active ensures flans'[x].holding == flans[x].holding {
      assert x !in holders;
      OutsideUntouched(facs, flans, holders, st, oid, Matching.DropOff, x);
    }
  }

  /** Each giver pair hands out one new `Resource`, so identities advance by one per pair. */
  lemma {:induction false} ResolveOids(facs: seq<Facility>, flans: seq<Flan>, q: seq<Claim>, oid: nat)
    requires ClaimsInRange(q, |flans|, |facs|)
    requires forall c :: c in q ==> IsGiver(facs[c.fac].kind)
    ensures Resolve(facs, flans, q, oid).nextOid == oid + |q|
    decreases |q|
  {
    if |q| > 0 {
      TailInRange(q, |flans|, |facs|);
      assert q[0] in q;
      var s := Interact(facs, flans, q[0], oid);
      assert forall c :: c in q[1..] ==> c in q && IsGiver(s.facs[c.fac].kind);
      ResolveOids(s.facs, s.flans, q[1..], s.nextOid);
    }
  }

  /**
    The pick-up half of `match`: the active flans now empty-handed are matched
    with givers and the pairs resolved.
  */
  method PickUpHalf(mode: Sameness, facs: seq<Facility>, flans: seq<Flan>, active: seq<HogId>, oid: nat)
    returns (facs': seq<Facility>, flans': seq<Flan>, seekerQueue: seq<Claim>, oid': nat)
    requires WellFormed(facs, MatchState(flans, active, []))
    ensures CargoKept(flans, flans', active)
    ensures PickUpEffect(facs, facs', seekerQueue)
    ensures oid' == oid + |seekerQueue|
    ensures forall c :: c in seekerQueue ==>
              && c.hog < |flans| && c.hog in active && flans[c.hog].holding.None?
              && c.fac < |facs| && IsGiver(facs[c.fac].kind) && Some(c.fac) in flans[c.hog].prefs
    ensures Settled(mode, facs, flans, WithCargo(flans, active, false), seekerQueue, Matching.PickUp)
  {
    var seekers := WithCargo(flans, active, false);
    forall x | x in seekers ensures x < |flans| && flans[x].holding.None? {
      var i :| 0 <= i < |seekers| && seekers[i] == x;
    }
    var st := RunPhase(mode, facs, flans, seekers, Matching.PickUp);
    PickUpFacts(facs, flans, seekers, st, oid);
    ResolveOids(facs, st.flans, st.queue, oid);
    var r := Resolve(facs, st.flans, st.queue, oid);
    facs', flans', seekerQueue, oid' := r.facs, r.flans, st.queue, r.nextOid;
    forall x | 0 <= x < |flans| && x !in active ensures flans'[x].holding == flans[x].holding {
      assert x !in seekers;
      OutsideUntouched(facs, flans, seekers, st, oid, Matching.PickUp, x);
    }
  }

  /** `reset_interact_preferences()` for every flan, as the `Matchmaker` constructor does. */
  function ResetAll(b: Board, facAt: seq<Option<FacId>>, nfacs: nat, flans: seq<Flan>): (r: seq<Flan>)
    requires b.Valid() && |facAt| == b.Size() && Matching.FacAtInRange(facAt, nfacs) && OnBoard(b, flans)
    ensures |r| == |flans| && forall x :: 0 <= x < |flans| ==> r[x] == ResetPrefs(b, facAt, flans[x])
    ensures PrefsInRange(r, nfacs)
  {
    var r := seq(|flans|, i requires 0 <= i < |flans| => ResetPrefs(b, facAt, flans[i]));
    assert PrefsInRange(r, nfacs) by {
      forall x, p | 0 <= x < |r| && p in r[x].prefs && p.Some? ensures p.value < nfacs {
        Matching.NeighborPrefsInRange(b, facAt, flans[x].tile, flans[x].dir, nfacs);
      }
    }
    r
  }

  /** Wiring depends only on facility kinds. */
  lemma WiredKept(facs: seq<Facility>, facs': seq<Facility>)
    requires Wired(facs) && SameFacilities(facs, facs')
    ensures Wired(facs')
  {
    forall f | 0 <= f < |facs'| && facs'[f].kind.ShopInput?
      ensures facs'[f].kind.output < |facs'| && facs'[facs'[f].kind.output].kind == ShopOutput(facs'[f].kind.recipe)
    {
      assert facs'[f].kind == facs[f].kind;
    }
  }

  /** The two halves' effects on the facilities, composed. */
  lemma ComposeEffects(facs: seq<Facility>, facs2: seq<Facility>, facs': seq<Facility>, hq: seq<Claim>, sq: seq<Claim>)
    requires DropOffEffect(facs, facs2, hq) && PickUpEffect(facs2, facs', sq)
    ensures MatchEffect(facs, facs', hq, sq)
  {
  }

  /** The pick-up half leaves shop inputs alone, so a drop-off that overfilled none leaves the match overfilling none. */
  lemma ComposeHalves(facs: seq<Facility>, facs2: seq<Facility>, facs': seq<Facility>, hq: seq<Claim>, sq: seq<Claim>)
    requires Wired(facs) && DropOffEffect(facs, facs2, hq) && NoOverfill(facs, facs2)
    requires PickUpEffect(facs2, facs', sq)
    ensures NoOverfill(facs, facs')
  {
    forall f, n | 0 <= f < |facs| && facs[f].kind.ShopInput? ensures Fits(facs, f, n, facs'[f].holding) {
      assert facs'[f] == facs2[f];
      assert Fits(facs, f, n, facs2[f].holding);
    }
  }

  /** Only cargo and preferences differ, across two steps. */
  lemma SameFlansTrans(a: seq<Flan>, b: seq<Flan>, c: seq<Flan>)
    requires SameFlans(a, b) && SameFlans(b, c)
    ensures SameFlans(a, c)
  {
  }

  /** Whether a flan gave up at pick-up depends only on the givers, which drop-off leaves alone. */
  lemma GaveUpTransfer(mode: Sameness, facs: seq<Facility>, facs': seq<Facility>, hq: seq<Claim>, flans0: seq<Flan>,
                       q: seq<Claim>, x: HogId, k: nat)
    requires Wired(facs) && DropOffEffect(facs, facs', hq)
    requires GaveUpAt(mode, facs', flans0, q, Matching.PickUp, x, k)
    ensures GaveUpAt(mode, facs, flans0, q, Matching.PickUp, x, k)
  {
    var p0 := flans0[x].prefs;
    forall i | 0 <= i < k && i < |p0| && ServesPref(facs, p0[i], Matching.PickUp)
      ensures Full(mode, facs, flans0, q, p0[i].value, x)
    {
      var f := p0[i].value;
      assert ServesPref(facs', p0[i], Matching.PickUp);
      assert facs'[f] == facs[f];
      assert Capacity(facs', f, NameOf(flans0[x].holding)) == Capacity(facs, f, NameOf(flans0[x].holding));
    }
    if k < |p0| {
      assert ServesPref(facs', p0[k - 1], Matching.PickUp);
    }
  }

  /** The pick-up progress made against the facilities after drop-off holds against those before it. */
  lemma SettledTransfer(mode: Sameness, facs: seq<Facility>, facs': seq<Facility>, hq: seq<Claim>, flans0: seq<Flan>,
                        work0: seq<HogId>, q: seq<Claim>)
    requires Wired(facs) && DropOffEffect(facs, facs', hq)
    requires Settled(mode, facs', flans0, work0, q, Matching.PickUp)
    ensures Settled(mode, facs, flans0, work0, q, Matching.PickUp)
  {
    forall x | x in work0 && x !in Claimants(q)
      ensures exists k: nat :: GaveUpAt(mode, facs, flans0, q, Matching.PickUp, x, k)
    {
      var k: nat :| GaveUpAt(mode, facs', flans0, q, Matching.PickUp, x, k);
      GaveUpTransfer(mode, facs, facs', hq, flans0, q, x, k);
    }
  }

  /**
    The two phases of `match` for the flans of `active`, whose preferences
    are already built: drop-off, the preference reset of every active flan,
    then pick-up.  `mid` is the flans as pick-up starts: each active flan's
    preferences rebuilt from the tiles around it.
  */
  method Phases(mode: Sameness, b: Board, facAt: seq<Option<FacId>>, facs: seq<Facility>, flans: seq<Flan>,
                active: seq<HogId>, oid: nat)
    returns (facs': seq<Facility>, flans': seq<Flan>, holderQueue: seq<Claim>, mid: seq<Flan>,
             seekerQueue: seq<Claim>, oid': nat)
    requires b.Valid() && |facAt| == b.Size() && Matching.FacAtInRange(facAt, |facs|) && OnBoard(b, flans)
    requires WellFormed(facs, MatchState(flans, active, []))
    ensures CargoKept(flans, flans', active)
    ensures MatchEffect(facs, facs', holderQueue, seekerQueue)
    ensures mode == ByName ==> NoOverfill(facs, facs')
    ensures oid' == oid + |seekerQueue|
    ensures CargoKept(flans, mid, active) && CargoKept(mid, flans', active)
    ensures forall x :: x in active ==>
              x < |mid| && mid[x].prefs == Matching.NeighborPrefs(b, facAt, flans[x].tile, flans[x].dir)
    ensures forall c :: c in holderQueue ==>
              && c.hog < |flans| && c.hog in active && flans[c.hog].holding.Some?
              && c.fac < |facs| && IsTaker(facs[c.fac].kind) && Some(c.fac) in flans[c.hog].prefs
    ensures Settled(mode, facs, flans, WithCargo(flans, active, true), holderQueue, Matching.DropOff)
    ensures forall c :: c in seekerQueue ==>
              && c.hog < |flans| && c.hog in active && mid[c.hog].holding.None?
              && c.fac < |facs| && IsGiver(facs[c.fac].kind) && Some(c.fac) in mid[c.hog].prefs
    ensures Settled(mode, facs, mid, WithCargo(mid, active, false), seekerQueue, Matching.PickUp)
  {
    var facs2, flans2, hq := DropOffHalf(mode, facs, flans, active, oid);
    facs', flans', mid, seekerQueue, oid' := ResetThenPickUp(mode, b, facAt, facs, facs2, hq, flans, flans2, active, oid);
    holderQueue := hq;
    SameFlansTrans(flans, flans2, mid);
    ComposeEffects(facs, facs2, facs', hq, seekerQueue);
    if mode == ByName {
      ComposeHalves(facs, facs2, facs', hq, seekerQueue);
    }
  }

  /**
    The second half of `match` after drop-off: the preference reset of every
    active flan, then pick-up.  Pick-up progress is stated against the
    facilities before drop-off (`facs`), whose givers drop-off left alone.
  */
  method ResetThenPickUp(mode: Sameness, b: Board, facAt: seq<Option<FacId>>, facs: seq<Facility>,
                         facs2: seq<Facility>, hq: seq<Claim>, flans: seq<Flan>, flans2: seq<Flan>,
                         active: seq<HogId>, oid: nat)
    returns (facs': seq<Facility>, flans': seq<Flan>, mid: seq<Flan>, seekerQueue: seq<Claim>, oid': nat)
    requires b.Valid() && |facAt| == b.Size() && Matching.FacAtInRange(facAt, |facs|) && OnBoard(b, flans)
    requires Wired(facs) && DropOffEffect(facs, facs2, hq)
    requires CargoKept(flans, flans2, active) && PrefsInRange(flans2, |facs|)
    requires forall i :: 0 <= i < |active| ==> active[i] < |flans|
    ensures PickUpEffect(facs2, facs', seekerQueue)
    ensures oid' == oid + |seekerQueue|
    ensures CargoKept(flans2, mid, active) && CargoKept(mid, flans', active)
    ensures forall x :: 0 <= x < |flans| ==> mid[x].holding == flans2[x].holding
    ensures forall x :: x in active ==>
              x < |mid| && mid[x].prefs == Matching.NeighborPrefs(b, facAt, flans[x].tile, flans[x].dir)
    ensures forall c :: c in seekerQueue ==>
              && c.hog < |flans| && c.hog in active && mid[c.hog].holding.None?
              && c.fac < |facs| && IsGiver(facs[c.fac].kind) && Some(c.fac) in mid[c.hog].prefs
    ensures Settled(mode, facs, mid, WithCargo(mid, active, false), seekerQueue, Matching.PickUp)
  {
    assert OnBoard(b, flans2);
    ResetInRange(b, facAt, flans2, active, |facs|);
    mid := ResetListed(b, facAt, flans2, active);
    WiredKept(facs, facs2);
    facs', flans', seekerQueue, oid' := PickUpHalf(mode, facs2, mid, active, oid);
    SettledTransfer(mode, facs, facs2, hq, mid, WithCargo(mid, active, false), seekerQueue);
    ResetMid(b, facAt, flans, flans2, active, mid);
    SameKinds(facs, facs2, hq, seekerQueue);
  }

  /** The reset flans' preferences are rebuilt from where they stand, which drop-off does not change. */
  lemma ResetMid(b: Board, facAt: seq<Option<FacId>>, flans: seq<Flan>, flans2: seq<Flan>, active: seq<HogId>,
                 mid: seq<Flan>)
    requires b.Valid() && |facAt| == b.Size() && OnBoard(b, flans2) && SameFlans(flans, flans2)
    requires forall i :: 0 <= i < |active| ==> active[i] < |flans2|
    requires mid == ResetListed(b, facAt, flans2, active)
    ensures forall x :: x in active ==>
              x < |mid| && mid[x].prefs == Matching.NeighborPrefs(b, facAt, flans[x].tile, flans[x].dir)
  {
    forall x | x in active
      ensures x < |mid| && mid[x].prefs == Matching.NeighborPrefs(b, facAt, flans[x].tile, flans[x].dir)
    {
      var i :| 0 <= i < |active| && active[i] == x;
      assert flans2[x].tile == flans[x].tile && flans2[x].dir == flans[x].dir;
    }
  }

  /** Claims on facilities of the drop-off result are on facilities of the same kind before it. */
  lemma SameKinds(facs: seq<Facility>, facs2: seq<Facility>, hq: seq<Claim>, q: seq<Claim>)
    requires DropOffEffect(facs, facs2, hq)
    requires forall c :: c in q ==> c.fac < |facs2| && IsGiver(facs2[c.fac].kind)
    ensures forall c :: c in q ==> c.fac < |facs| && IsGiver(facs[c.fac].kind)
  {
  }

  /** Which flans moved does not depend on their preferences. */
  lemma {:induction false} ActivePrefsOnly(flans: seq<Flan>, flans': seq<Flan>, n: nat)
    requires n <= |flans| == |flans'|
    requires forall x :: 0 <= x < |flans| ==> flans'[x].hopped == flans[x].hopped
    ensures Active(flans', n) == Active(flans, n)
  {
    if n > 0 {
      ActivePrefsOnly(flans, flans', n - 1);
    }
  }

  /** Which listed flans carry something does not depend on their preferences. */
  lemma {:induction false} WithCargoPrefsOnly(flans: seq<Flan>, flans': seq<Flan>, list: seq<HogId>, cargo: bool)
    requires |flans'| == |flans| && forall i :: 0 <= i < |list| ==> list[i] < |flans|
    requires forall x :: 0 <= x < |flans| ==> flans'[x].holding == flans[x].holding
    ensures WithCargo(flans', list, cargo) == WithCargo(flans, list, cargo)
  {
    if |list| > 0 {
      WithCargoPrefsOnly(flans, flans', list[1..], cargo);
    }
  }

  /**
    `new Matchmaker(board).match()`: every flan's preferences are rebuilt;
    the flans that moved this tick drop off with takers; their preferences are
    rebuilt again; those of them now empty-handed pick up from givers.  `oid`
    is the first object identity not yet used, and `oid'` the next one after.

    `mode` is how `prefers` compares cargo: `ByIdentity` as written, `ByName`
    as corrected.  Either way, flans that did not move keep their cargo; a
    giver loses one unit of `resource_count` per pick-up pair and never more
    than it had; a taker keeps what it held and gains one entry per drop-off
    pair.  Only compared by name is no shop input overfilled.  Every drop-off
    claim is by a moved flan carrying something, on a taker among the tiles
    around it, and every such flan holds a claim or found each taker it
    tried without room for it.  `mid` is the flans as pick-up starts, each
    moved one's preferences rebuilt from the tiles around it, and pick-up is
    the same for the moved flans empty-handed in `mid`, with givers.
  */
  method Match(mode: Sameness, b: Board, facAt: seq<Option<FacId>>, facs: seq<Facility>, flans: seq<Flan>, oid: nat)
    returns (facs': seq<Facility>, flans': seq<Flan>, holderQueue: seq<Claim>, mid: seq<Flan>,
             seekerQueue: seq<Claim>, oid': nat)
    requires b.Valid() && |facAt| == b.Size() && Matching.FacAtInRange(facAt, |facs|) && OnBoard(b, flans)
    requires Wired(facs)
    ensures SameFlans(flans, flans')
    ensures forall x :: 0 <= x < |flans| && !flans[x].hopped ==> flans'[x].holding == flans[x].holding
    ensures MatchEffect(facs, facs', holderQueue, seekerQueue)
    ensures mode == ByName ==> NoOverfill(facs, facs')
    ensures oid' == oid + |seekerQueue|
    ensures SameFlans(flans, mid)
    ensures forall x :: 0 <= x < |flans| && flans[x].hopped ==>
              mid[x].prefs == Matching.NeighborPrefs(b, facAt, flans[x].tile, flans[x].dir)
    ensures forall c :: c in holderQueue ==>
              && c.hog < |flans| && flans[c.hog].hopped && flans[c.hog].holding.Some?
              && c.fac < |facs| && IsTaker(facs[c.fac].kind)
              && Some(c.fac) in Matching.NeighborPrefs(b, facAt, flans[c.hog].tile, flans[c.hog].dir)
    ensures Settled(mode, facs, ResetAll(b, facAt, |facs|, flans), WithCargo(flans, Active(flans, |flans|), true),
                    holderQueue, Matching.DropOff)
    ensures forall c :: c in seekerQueue ==>
              && c.hog < |flans| && flans[c.hog].hopped && mid[c.hog].holding.None?
              && c.fac < |facs| && IsGiver(facs[c.fac].kind)
              && Some(c.fac) in Matching.NeighborPrefs(b, facAt, flans[c.hog].tile, flans[c.hog].dir)
    ensures Settled(mode, facs, mid, WithCargo(mid, Active(flans, |flans|), false), seekerQueue, Matching.PickUp)
  {
    var flans1 := ResetAll(b, facAt, |facs|, flans);
    var active := Active(flans1, |flans1|);
    facs', flans', holderQueue, mid, seekerQueue, oid' := Phases(mode, b, facAt, facs, flans1, active, oid);
    SameFlansTrans(flans, flans1, flans');
    SameFlansTrans(flans, flans1, mid);
    forall x | 0 <= x < |flans| && !flans[x].hopped ensures flans'[x].holding == flans[x].holding {
      assert x !in active;
    }
    ActivePrefsOnly(flans, flans1, |flans|);
    WithCargoPrefsOnly(flans, flans1, active, true);
    ResetClaims(b, facAt, |facs|, flans, holderQueue);
  }

  /** A claim on a preference of the reset flans is on a facility around the flan. */
  lemma ResetClaims(b: Board, facAt: seq<Option<FacId>>, nfacs: nat, flans: seq<Flan>, q: seq<Claim>)
    requires b.Valid() && |facAt| == b.Size() && Matching.FacAtInRange(facAt, nfacs) && OnBoard(b, flans)
    requires var flans1 := ResetAll(b, facAt, nfacs, flans);
             forall c :: c in q ==> c.hog < |flans| && Some(c.fac) in flans1[c.hog].prefs
    ensures forall c :: c in q ==>
              c.hog < |flans| && Some(c.fac) in Matching.NeighborPrefs(b, facAt, flans[c.hog].tile, flans[c.hog].dir)
  {
  }

  /** `holding.findIndex(e => e.name === name)`: the first entry with that name, or -1. */
  function FindIndex(holding: seq<Option<Resource>>, name: string): (k: int)
    ensures -1 <= k < |holding|
    ensures k == -1 <==> NumberHeld(holding, name) == 0
    ensures k >= 0 ==> NameOf(holding[k]) == Some(name) && forall j :: 0 <= j < k ==> NameOf(holding[j]) != Some(name)
  {
    if |holding| == 0 then -1
    else if NameOf(holding[0]) == Some(name) then 0
    else
      var k := FindIndex(holding[1..], name);
      if k == -1 then -1 else k + 1
  }

  /** Taking out entry `k` lowers the count of its name by one and leaves the other names' counts alone. */
  lemma DropEntryCount(holding: seq<Option<Resource>>, k: nat, name: string)
    requires k < |holding|
    ensures NumberHeld(holding[..k] + holding[k + 1..], name) ==
              NumberHeld(holding, name) - (if NameOf(holding[k]) == Some(name) then 1 else 0)
  {
    assert holding == holding[..k] + ([holding[k]] + holding[k + 1..]);
    NumberHeldConcat(holding[..k], [holding[k]] + holding[k + 1..], name);
    NumberHeldConcat([holding[k]], holding[k + 1..], name);
    NumberHeldConcat(holding[..k], holding[k + 1..], name);
  }

  /**
    `removeHeld(name)`: `splice(findIndex(...), 1)`.  When no entry has the
    name, `findIndex` is -1 and the last entry goes, whatever it is.
  */
  function RemoveHeld(holding: seq<Option<Resource>>, name: string): (r: seq<Option<Resource>>)
    ensures NumberHeld(holding, name) == 0 ==> r == holding[..if |holding| == 0 then 0 else |holding| - 1]
    ensures NumberHeld(holding, name) > 0 ==> |r| == |holding| - 1
  {
    Splice1(holding, FindIndex(holding, name))
  }

  /** When the name is held, `removeHeld` takes out exactly one entry of that name and nothing else. */
  lemma RemoveHeldCount(holding: seq<Option<Resource>>, name: string, other: string)
    requires NumberHeld(holding, name) > 0
    ensures NumberHeld(RemoveHeld(holding, name), other) ==
              NumberHeld(holding, other) - (if other == name then 1 else 0)
  {
    var k := FindIndex(holding, name);
    DropEntryCount(holding, k, other);
  }

  /**
    `for (let i = 0; i < n; ++i) this.removeHeld(name)`: every round takes out
    one entry while any is left, whether or not it has the name.
  */
  function RemoveTimes(holding: seq<Option<Resource>>, name: string, n: int): (r: seq<Option<Resource>>)
    ensures |r| == Matching.Max0(|holding| - Matching.Max0(n))
    decreases n
  {
    if n <= 0 then holding else RemoveTimes(RemoveHeld(holding, name), name, n - 1)
  }

  /** With at least `n` entries of the name held, `n` removals take out exactly `n` of them and nothing else. */
  lemma {:induction false} RemoveTimesCount(holding: seq<Option<Resource>>, name: string, n: int, other: string)
    requires n <= NumberHeld(holding, name)
    ensures NumberHeld(RemoveTimes(holding, name, n), other) ==
              NumberHeld(holding, other) - (if other == name then Matching.Max0(n) else 0)
    ensures |RemoveTimes(holding, name, n)| == |holding| - Matching.Max0(n)
    decreases n
  {
    if n > 0 {
      RemoveHeldCount(holding, name, other);
      RemoveHeldCount(holding, name, name);
      RemoveTimesCount(RemoveHeld(holding, name), name, n - 1, other);
    }
  }

  /** What the parts of a recipe ask for of `name`, summed (each part's amount counted from zero). */
  function Removed(parts: seq<RecipePart>, name: string): (t: nat)
    ensures (forall k :: 0 <= k < |parts| ==> parts[k].name != name) ==> t == 0
  {
    if |parts| == 0 then 0
    else (if parts[0].name == name then Matching.Max0(parts[0].amount) else 0) + Removed(parts[1..], name)
  }

  /** What a recipe asks for in total, each part's amount counted from zero. */
  function TotalAsked(parts: seq<RecipePart>): nat
  {
    if |parts| == 0 then 0 else Matching.Max0(parts[0].amount) + TotalAsked(parts[1..])
  }

  /**
    `ShopInput.craft()`: for each part in recipe order, `part[1]` removals of
    `part[0]`; the holding shrinks by the recipe's total, down to empty.
  */
  function InputCraft(holding: seq<Option<Resource>>, parts: seq<RecipePart>): (r: seq<Option<Resource>>)
    ensures |r| == Matching.Max0(|holding| - TotalAsked(parts))
    decreases |parts|
  {
    if |parts| == 0 then holding
    else InputCraft(RemoveTimes(holding, parts[0].name, parts[0].amount), parts[1..])
  }

  /**
    When every name is held at least as often as the recipe asks in total,
    crafting takes out exactly what the recipe asks of every name.
  */
  lemma {:induction false} InputCraftCount(holding: seq<Option<Resource>>, parts: seq<RecipePart>, name: string)
    requires forall n :: Removed(parts, n) <= NumberHeld(holding, n)
    ensures NumberHeld(InputCraft(holding, parts), name) == NumberHeld(holding, name) - Removed(parts, name)
    decreases |parts|
  {
    if |parts| > 0 {
      var p := parts[0];
      var h := RemoveTimes(holding, p.name, p.amount);
      assert Removed(parts, p.name) <= NumberHeld(holding, p.name);
      forall n ensures Removed(parts[1..], n) <= NumberHeld(h, n) {
        RemoveTimesCount(holding, p.name, p.amount, n);
        assert Removed(parts, n) <= NumberHeld(holding, n);
      }
      RemoveTimesCount(holding, p.name, p.amount, name);
      InputCraftCount(h, parts[1..], name);
    }
  }

  /** Every ingredient name appears in at most one part. */
  predicate DistinctNames(parts: seq<RecipePart>) {
    forall i, j :: 0 <= i < j < |parts| ==> parts[i].name != parts[j].name
  }

  /** The guard of `Shop.craft`: every part is held at least `part[1]` times. */
  predicate PartsHeld(parts: seq<RecipePart>, holding: seq<Option<Resource>>) {
    forall k :: 0 <= k < |parts| ==> parts[k].amount <= NumberHeld(holding, parts[k].name)
  }

  /** With distinct names, what the recipe asks of a name is that one part's amount. */
  lemma {:induction false} RemovedDistinct(parts: seq<RecipePart>, k: nat)
    requires DistinctNames(parts) && k < |parts|
    ensures Removed(parts, parts[k].name) == Matching.Max0(parts[k].amount)
    decreases |parts|
  {
    if k > 0 {
      RemovedDistinct(parts[1..], k - 1);
    } else {
      assert forall j :: 0 <= j < |parts[1..]| ==> parts[1..][j].name != parts[0].name by {
        forall j | 0 <= j < |parts[1..]| ensures parts[1..][j].name != parts[0].name {
          assert parts[1..][j] == parts[j + 1];
        }
      }
    }
  }

  /**
    `Shop.craft()` on the shop whose input is facility `f`: if every part is
    held, the input gives up the recipe's ingredients and the output is
    stocked with the recipe's `output[1]`; otherwise nothing happens.
  */
  function ShopCraft(facs: seq<Facility>, f: FacId): (r: seq<Facility>)
    requires f < |facs| && Wired(facs) && facs[f].kind.ShopInput?
    ensures SameFacilities(facs, r)
    ensures var k := facs[f].kind;
            && (!PartsHeld(k.recipe.input, facs[f].holding) ==> r == facs)
            && (PartsHeld(k.recipe.input, facs[f].holding) ==>
                  && r[f] == facs[f].(holding := InputCraft(facs[f].holding, k.recipe.input))
                  && r[k.output] == facs[k.output].(count := k.recipe.amount)
                  && forall g :: 0 <= g < |facs| && g != f && g != k.output ==> r[g] == facs[g])
  {
    var k := facs[f].kind;
    if !PartsHeld(k.recipe.input, facs[f].holding) then facs
    else
      assert facs[k.output].kind.ShopOutput?;
      facs[f := facs[f].(holding := InputCraft(facs[f].holding, k.recipe.input))]
          [k.output := facs[k.output].(count := k.recipe.amount)]
  }

  /**
    For a recipe with distinct ingredient names, a craft that fires takes out
    exactly `part[1]` of every part's ingredient (none if `part[1]` is not
    positive) and no good the recipe does not use; and with a positive
    output amount the input then accepts nothing.
  */
  lemma ShopCraftCounts(facs: seq<Facility>, f: FacId, name: string)
    requires f < |facs| && Wired(facs) && facs[f].kind.ShopInput?
    requires DistinctNames(facs[f].kind.recipe.input)
    requires PartsHeld(facs[f].kind.recipe.input, facs[f].holding)
    ensures var r := ShopCraft(facs, f);
            var part := Facilities.RecipeRequires(facs[f].kind.recipe.input, name);
            && (part.None? ==> NumberHeld(r[f].holding, name) == NumberHeld(facs[f].holding, name))
            && (part.Some? ==> NumberHeld(r[f].holding, name) == NumberHeld(facs[f].holding, name) - Matching.Max0(part.value.amount))
    ensures facs[f].kind.recipe.amount > 0 ==> forall key :: Capacity(ShopCraft(facs, f), f, key) == 0
  {
    var parts := facs[f].kind.recipe.input;
    forall n ensures Removed(parts, n) <= NumberHeld(facs[f].holding, n) {
      if exists k :: 0 <= k < |parts| && parts[k].name == n {
        var k :| 0 <= k < |parts| && parts[k].name == n;
        RemovedDistinct(parts, k);
      }
    }
    InputCraftCount(facs[f].holding, parts, name);
    var part := Facilities.RecipeRequires(parts, name);
    if part.Some? {
      var k :| 0 <= k < |parts| && parts[k] == part.value && forall j :: 0 <= j < k ==> parts[j].name != name;
      RemovedDistinct(parts, k);
    }
    WiredKept(facs, ShopCraft(facs, f));
  }

  /** `board.craft_shops()`: `Shop.craft` for each shop in turn, each named by its input facility. */
  function CraftShops(facs: seq<Facility>, shops: seq<FacId>): (r: seq<Facility>)
    requires Wired(facs)
    requires forall i :: 0 <= i < |shops| ==> shops[i] < |facs| && facs[shops[i]].kind.ShopInput?
    ensures SameFacilities(facs, r)
    ensures forall g :: 0 <= g < |facs| && facs[g].kind.Castle? ==> r[g] == facs[g]
    ensures forall g :: 0 <= g < |facs| && (facs[g].kind.BerryBush? || facs[g].kind.Tree?) ==> r[g] == facs[g]
    decreases |shops|
  {
    if |shops| == 0 then facs
    else
      var r := ShopCraft(facs, shops[0]);
      WiredKept(facs, r);
      CraftShops(r, shops[1..])
  }
}
