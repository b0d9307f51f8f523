# GroundhogDay: movement and matching core in Dafny

GroundhogDay simulates *hogs* (called *flans* in the older single-file
version) that walk along roads on a board. The board wraps around in both
directions. Every tick runs two steps:

1. The **movement resolver** moves each hog one tile, or keeps it waiting.
   It can also mark the hog `stuck`, or mark it `looped` when it belongs to
   a closed procession.
2. The **interaction matcher** pairs the hogs that moved with the facilities
   beside them:
   - a hog carrying a good drops it off at a *taker* (castle, shop input);
   - an empty-handed hog picks up from a *giver* (berry bush, tree, shop
     output, or in the modular version a goods giver).

The repository holds both algorithms twice:
- in the modular version (`modules/*.mjs`);
- in the monolith `groundhogday.js`.

Movement is the same algorithm in both. The matcher differs: the modular
`consult_next` compares goods by name and evicts the worst-ranked claimant,
while the monolith's `Matchmaker`/`prefers` compares cargo by object
identity and evicts the first worse-ranked one. The model of the monolith's
matcher takes that comparison as a parameter: `ByIdentity` is the program
as written, and `ByName` is the correction described under Findings.

## Modules

- `Wrappers`: `Option` and `Result`.
- `JsMath`: JavaScript's truncating `%` (`JsRem`) and the repository's
  `mod(m, n) = (m % n + n) % n`.
- `Grid`: the torus board, the compass directions with their rotations,
  `tileAt`, the neighbour getters, and `tilesFromMatrix`.
- `Matrix`: `rotateMatrix`.
- `Goods`: `aggregate_arrays` and the value arrays built by the `Good`
  constructor. The goods table is a parameter.
- `Lists`: `indexOf` and the list removal a tile uses for its hogs.
- `World`: the arena.
  - Hogs are addressed by index.
  - Each tile holds an ordered occupant list.
  - `World.Valid` says every hog is listed exactly once, on its own tile.
  - The module also holds `going` and `move`.
- `Movement`: `following`, `going_to_t`, `hog_competing_for_t` and the
  recursive `step`.
- `Tick`: the movement part of `Board.step`.
- `Facilities`: the modular facilities' capacity and effects, and
  `Shop.craft`.
- `Queue`: the interaction queue, shared by both matchers.
- `Matching`: the modular `consult_next` and `match_interactions`.
- `Matchmaker`: the monolith's matcher, its giver/taker/shop counters and
  its shop crafting.

The model takes as parameters everything the program reads from outside:
- the goods/recipe tables;
- the facility standing on each tile (`facAt`);
- a recursion budget (`fuel`) for `step`;
- the next object id (`oid`) for resources created by a giver, so that the
  monolith's identity comparison can be modelled.

The recursive `step` never throws or loops in the model. The outcomes below
become `Failure` values; the first three are ones the source either never
leaves or throws on, the last is one the source goes on with (see
"## Left out"):
- running out of the fuel budget (`OutOfFuel`);
- a loop-marking walk that does not come back to its start (`EndlessWalk`);
- a walk that reaches a hog following nobody (`WalkFellOff`). In the source
  this assigns to `false.looped`.
- a competing hog that is the probe itself (`DetachedProbe`). This only
  happens on a board one tile wide or high.

Where the prose design and the code disagree, the model follows the code:
- A road-less hog that is first on its tile follows itself, so it becomes
  `stuck` without moving (`Movement.RoadlessFirstHogSticks`).
- The check after waiting reads `.looped`/`.stuck` on the `following`
  *method*, not on its result, so that branch never sets `stuck`
  (`Movement.AfterWait`).
- The modular shop input's "output stocked" guard reads a `resource_count`
  that the modular shop output never sets, so the guard never fires
  (`Facilities.Capacity`).
- In the modular matcher, the preference reset after drop-off walks the
  already-drained holder list, so it resets nobody
  (`Matching.DropOffHalf`).

## Model

| member | source | states |
|---|---|---|
| JsMath.JsRem | modules/utilities.mjs:2 | JavaScript's `%` keeps the dividend's sign and is smaller in magnitude than the divisor |
| JsMath.JsRemDivides | modules/utilities.mjs:2 | the dividend minus the truncating remainder is a multiple of the divisor |
| JsMath.Mod | modules/utilities.mjs:1-3 | `mod` takes the divisor's sign: for n > 0 the result lies in `[0, n)`, for n < 0 in `(n, 0]` |
| JsMath.ModIsEuclidean | modules/utilities.mjs:1-3 | for a positive modulus, `mod` agrees with the Euclidean remainder |
| JsMath.ModDivides | modules/utilities.mjs:1-3 | `m - mod(m, n)` is divisible by n |
| JsMath.ModOfSmall | modules/utilities.mjs:1-3 | `mod(m, n) == m` for `0 <= m < n` |
| JsMath.ModPeriodic | groundhogday.js:3-5 | adding any multiple of n leaves `mod` unchanged |
| JsMath.ModAddReduced | groundhogday.js:3-5 | reducing before an offset gives the same result as reducing after it, which is what makes neighbours of neighbours consistent |
| Grid.Right | modules/basic_classes.mjs:414-421 | `right` is one clockwise quarter turn: the heading's compass position advances by one, modulo four |
| Grid.Left | modules/basic_classes.mjs:422-429 | `left` is one counter-clockwise quarter turn: the compass position moves back by one, modulo four |
| Grid.Back | modules/basic_classes.mjs:430-437 | `back` is a half turn: the compass position advances by two, modulo four |
| Grid.RotationAlgebra | modules/basic_classes.mjs:414-437 | `left` undoes `right`; `back` is two rights and two lefts; four rights are the identity; the three turns differ from each other and from the heading |
| Grid.TileAt | modules/basic_classes.mjs:207-209 | every pair of integer coordinates, negative or too large included, names a board tile |
| Grid.TileAtCoordinates | groundhogday.js:209-211 | the tile's column is `mod(x, width)` and its row is `mod(y, height)` |
| Grid.DivInBoard | modules/basic_classes.mjs:171 | the row `Math.floor(index / width)` of a tile index is a row of the board |
| Grid.TileAtReduced | modules/basic_classes.mjs:207-209 | `tileAt` depends only on the two coordinates reduced with `mod` |
| Grid.TileAtOwnCoordinates | modules/basic_classes.mjs:207-209 | every tile is `tileAt` of its own in-range coordinates |
| Grid.CoordinatesOfTileAt | modules/basic_classes.mjs:207-209 | the coordinates read back from `tileAt(x, y)` are x and y wrapped into the board |
| Grid.Neighbor | modules/basic_classes.mjs:142-153 | `north`/`south`/`east`/`west` always yield a board tile |
| Grid.NeighborCoordinates | modules/basic_classes.mjs:142-153 | a neighbour is one step away in the given direction, wrapped in both coordinates |
| Grid.ModBack | modules/basic_classes.mjs:142-153 | on one axis, a wrapped step forward and a wrapped step back return to the start |
| Grid.NeighborBack | modules/basic_classes.mjs:142-153 | stepping in a direction and then in its `back` direction returns to the start tile |
| Grid.EastThenWest | modules/basic_classes.mjs:142-153 | east then west, and north then south, return to the start tile |
| Grid.NeighborMoves | modules/basic_classes.mjs:142-153 | on a board at least two tiles wide and high, no neighbour is the tile itself |
| Grid.TilesFromMatrix | modules/basic_classes.mjs:304-324 | slot k is filled exactly when some entry equals a non-negative integer k; it holds `tileAt(corner.x + i, corner.y - j)` of the last such entry in row-major order |
| Grid.FillCell | groundhogday.js:304-325 | one cell of the scan: an integer k >= 0 writes slot k with the cell's tile, any other entry is skipped, and the slot invariant holds one cell further |
| Grid.FillRow | groundhogday.js:304-325 | one row of the `tilesFromMatrix` scan keeps the slot invariant |
| Matrix.RotateMatrix | modules/hog_interactions.mjs:7-16 | the result has as many rows as the input's first row has columns; every row is as long as the input is high; `out[i][j] == m[rows-1-j][i]`, with holes where a ragged row is short |
| Matrix.RotatedShape | modules/hog_interactions.mjs:7-16 | a rectangular rows×cols matrix rotates into a rectangular cols×rows matrix |
| Matrix.RotatedTwice | groundhogday.js:1152-1163 | two rotations turn a rectangular matrix by a half turn |
| Matrix.RotatedFourTimes | modules/hog_interactions.mjs:7-16 | four rotations give back any rectangular matrix |
| Goods.AggregatePrefix | modules/goods.mjs:5-9 | folding the first n arrays succeeds exactly when every later array is at least as long as the first (a shorter one would give NaN entries, reported as `NaNEntry`); the result has the first array's length and sums entry i over those arrays |
| Goods.AggregateArrays | modules/goods.mjs:5-9 | zero arrays is an error (`reduce` without an initial value); otherwise the result has the first array's length and entry i is the sum of entry i of every argument, and where a later array is too short the entry would be NaN, which the model reports as `NaNEntry` |
| Goods.AggregateSingle | modules/goods.mjs:6 | one argument is returned unchanged |
| Goods.NewGood | modules/goods.mjs:11-21 | an unknown name is an error; a raw good's value array has `MAX_PLAYERS` entries, all zero except the base value at the owner; a crafted good's entry i is the multiplier times the summed inputs at i |
| Lists.IndexOf | modules/basic_classes.mjs:29-34 | -1 exactly when the element is absent, else the position of its first occurrence |
| Lists.Remove | modules/basic_classes.mjs:29-34 | removing a hog from a tile list splices out its first occurrence and keeps the rest in order (so one occurrence fewer in the multiset); removing an absent hog changes nothing |
| Lists.RemoveAppended | modules/basic_classes.mjs:29-34 | removing a hog that was just pushed onto a list that did not contain it gives the list back |
| World.OnItsTile | modules/basic_classes.mjs:189-195 | in a valid arena each hog is in its own tile's list |
| World.OnlyOnItsTile | modules/basic_classes.mjs:189-195 | a hog appears in no other tile's list |
| World.AllHogs | modules/basic_classes.mjs:189-195 | `Board.hogs` gathers exactly the hogs listed on the tiles |
| World.AllHogsComplete | modules/basic_classes.mjs:189-195 | in a valid arena every hog is gathered, and nothing else is |
| World.SetHog | modules/basic_classes.mjs:481-548 | changing one hog's flags keeps the arena valid and leaves every other hog and every tile list alone |
| World.Going | modules/basic_classes.mjs:438-447 | front if it is road, else right (clockwise), else left, else nothing, each case exactly under its condition; never back |
| World.MoveTarget | modules/basic_classes.mjs:379-398 | the tile a move leads to: the hog's own tile when `going()` is empty, else the neighbour in that direction |
| World.Move | modules/basic_classes.mjs:379-398 | `move('')` changes nothing; otherwise the hog leaves its old tile's list, is appended at the end of the new tile's list, takes the move direction and records `hopped_from`; other tiles and hogs are untouched and the arena stays valid |
| World.MovePreservesValid | modules/basic_classes.mjs:379-398 | removing a hog from its tile and appending it to another keeps every hog on exactly one list |
| Movement.FirstGoing | modules/basic_classes.mjs:43-50 | `hog_going` returns the first hog in the list whose `going()` matches, or nothing exactly when none matches |
| Movement.FirstGoingIsFirst | modules/basic_classes.mjs:43-50 | when position k holds the first hog of the list going `g`, `hog_going` returns exactly that hog |
| Movement.HogGoing | modules/basic_classes.mjs:43-50 | `tile.hog_going` returns the first hog in the tile's list whose `going()` matches (every earlier one goes elsewhere), and nothing exactly when no hog there matches |
| Movement.PushThenRemove | modules/basic_classes.mjs:448-455 | pushing the probe on a tile's list and removing it again restores every list |
| Movement.ProbeVisit | modules/basic_classes.mjs:448-455 | pushing the probe hog and removing it leaves every tile list as it was |
| Movement.ProbeLists | modules/basic_classes.mjs:456-480 | the same for the probes of `going_to_t` and `hog_competing_for_t` |
| Movement.Following | modules/basic_classes.mjs:448-455 | the hog followed stands on the probe's tile and heads where the probe would go, and it is the first such hog in that tile's list; nothing exactly when no hog there does |
| Movement.GoingToT | modules/basic_classes.mjs:456-469 | a T junction is reported exactly when the probe left the hog's tile, the probe's front is not road while its right is (so its `going()` is a right turn), and the tile to its left is road |
| Movement.LeftOfProbe | modules/basic_classes.mjs:472-474 | the tile to the probe's left is a board tile |
| Movement.HogCompetingForT | modules/basic_classes.mjs:470-480 | a competitor is an unstepped hog on the tile to the probe's left that turns into the same tile; none unless the hog is going to a T |
| Movement.CompetitorIsFirst | modules/basic_classes.mjs:470-480 | when the hog is going to a T, the competitor is the first hog on the left tile turning into the same tile: none if that hog has already stepped, otherwise that hog |
| Movement.NoCompetitorWithoutMatch | modules/basic_classes.mjs:470-480 | when no hog on the left tile turns into the same tile, there is no competitor, unless the left tile is the probe's own (a board one tile wide), where the probe itself is found |
| Movement.ResolvesTrans | modules/basic_classes.mjs:481-548 | the per-tick progress relation (flags only ever set, the arena kept valid) composes across recursive calls |
| Movement.ResolvesMove | modules/basic_classes.mjs:379-398 | a move is progress for every hog except the mover |
| Movement.ResolvesWait | modules/basic_classes.mjs:518-520 | setting `is_waiting` around the leader's step and clearing it afterwards is progress |
| Movement.MarkLoop | modules/basic_classes.mjs:505-511 | the loop-marking walk only sets `looped`; it marks the hog it starts from unless that hog is the target; failing means an endless walk or a walk off a detached hog |
| Movement.Step | modules/basic_classes.mjs:481-548 | a hog already stepped or stuck is a no-op; on success the hog has stepped or is stuck, no hog lost a flag, cargo or preference, and every other stuck hog stayed where it was |
| Movement.LoopStep | modules/basic_classes.mjs:505-516 | a hog whose leader is waiting on it closes a new loop: on success it is looped and stepped, and no hog lost a flag |
| Movement.LoopedAdvance | modules/basic_classes.mjs:491-498 | a hog already in a loop is marked stepped, moves and pushes its leader along; on success it stays looped and no hog lost a flag |
| Movement.FollowLeader | modules/basic_classes.mjs:499-537 | with a leader other than itself: behind a stuck or looped leader the hog becomes stuck in place; behind a waiting leader it ends up looped; on success it has stepped and no hog lost a flag |
| Movement.WaitThenAdvance | modules/basic_classes.mjs:518-536 | after waiting for its leader the hog has stepped and is no longer waiting |
| Movement.AfterWait | modules/basic_classes.mjs:521-527 | while the hog still follows someone, it stops in place, its lists unchanged, and the post-wait check never sets `stuck` |
| Movement.Advance | modules/basic_classes.mjs:528-547 | without a competitor the hog moves and is marked stepped; a competitor that is the probe itself is an error |
| Movement.RoadlessFirstHogSticks | modules/basic_classes.mjs:485-490 | a road-less hog that is first on its tile follows itself and becomes stuck and stepped without moving |
| Movement.BlockedBehindStuck | modules/basic_classes.mjs:499-504 | a hog following a stuck or looped hog becomes stuck in place |
| Movement.ClosingACycleLoops | modules/basic_classes.mjs:505-516 | a hog whose leader is waiting closes a loop: it becomes looped and stepped |
| Movement.FreeRoadAdvances | modules/basic_classes.mjs:538-547 | with nobody ahead and no competitor, `step` is exactly a move plus `has_stepped` |
| Tick.ResetTick | modules/basic_classes.mjs:211-222 | every tick clears `has_stepped` and `hopped_from`; `looped` and `stuck` are cleared only when `is_changed` |
| Tick.StepEach | modules/basic_classes.mjs:223-225 | after the board loop every listed hog has stepped or is stuck |
| Tick.StepEachSettled | modules/basic_classes.mjs:481-484 | stepping hogs that have all stepped or are stuck changes nothing |
| Tick.TickMoves | modules/basic_classes.mjs:210-225 | a tick clears `is_changed` and leaves every hog stepped or stuck |
| Tick.TickKeepsStuck | groundhogday.js:212-235 | without `is_changed`, a stuck hog stays stuck where it is; no hog's cargo or preferences change |
| Tick.TickClearsWaiting | modules/basic_classes.mjs:518-520 | no hog is left waiting that was not waiting before the tick |
| Tick.TickIdempotent | modules/basic_classes.mjs:223-225 | stepping the hogs again after a tick is a no-op |
| Queue.HogsOf | modules/hog_interactions.mjs:20-25 | the hogs queued for a target are exactly those with a pair for it |
| Queue.HogsOfAppend | groundhogday.js:630-640 | appending a pair extends that target's list by its hog, in insertion order, and no other target's list |
| Queue.AddPair | modules/hog_interactions.mjs:26-28 | `add_pair` appends |
| Queue.Splice1 | modules/hog_interactions.mjs:29-31 | `splice(start, 1)` for every start, negative ones counted from the end |
| Queue.RemovePair | modules/hog_interactions.mjs:29-31 | since `indexOf` of a fresh array literal is -1, `remove_pair` drops the last pair whatever its arguments |
| Queue.AddThenRemove | groundhogday.js:638-643 | a pair added and then "removed" leaves the queue as it was, even when another pair was named |
| Facilities.NumberHeld | modules/hog_interactions.mjs:429-435 | the count of held goods with a name never exceeds the number of entries |
| Facilities.NumberHeldZero | modules/hog_interactions.mjs:429-435 | the count is zero exactly when no held good has that name |
| Facilities.NumberHeldAppend | modules/hog_interactions.mjs:139-143 | pushing a good adds one to its name's count and nothing to the others |
| Facilities.RecipeRequires | modules/hog_interactions.mjs:328-330 | the first recipe part with that name, or nothing exactly when no part has it |
| Facilities.Capacity | modules/hog_interactions.mjs:423-428 | 100 for a castle; the number held for a giver; for a shop input, the recipe's requirement minus what is held, or 0 for a good the recipe does not use |
| Facilities.TakeFrom | modules/hog_interactions.mjs:139-143 | a taker appends the hog's cargo and leaves the hog empty-handed |
| Facilities.GiveTo | modules/hog_interactions.mjs:181-184 | a giver pops exactly its last good and hands it over |
| Facilities.Replenish | modules/hog_interactions.mjs:172-177 | a berry bush or tree is refilled with exactly its base count of new raw goods of its type, each worth the base value to player 0 and nothing to the others, and this fails only for an unknown type (or a crafted one, whose `reduce` of no inputs throws); a shop output (base count 0, hog_interactions.mjs:492-494) is emptied |
| Facilities.ReplenishRefills | modules/hog_interactions.mjs:172-177 | after a replenish a giver's `max_interactions` is its base count (0 for a shop output), and replenishing again changes nothing |
| Facilities.ValueArrays | modules/hog_interactions.mjs:331-342 | the value arrays of the held goods, failing exactly when an entry is not a good |
| Facilities.ShopCraft | modules/hog_interactions.mjs:331-342 | an unknown product is an error; without every part held nothing changes; a raw product is made from its base value whatever the input holds; a crafted product succeeds exactly when every held entry is a good, there is at least one, and every later value array is as long as the first, and then its value at i is the multiplier times the inputs' summed value at i; on success the input is emptied and the output holds exactly the product |
| Facilities.RawCraftIgnoresFalse | modules/goods.mjs:14-20 | a raw product is crafted even when the input holds a `false` entry that is not a good: the input is emptied and the output holds the product with its base value at owner 0 |
| Matching.WithHoldName | modules/hog_interactions.mjs:53-56 | the filter keeps no more hogs than were queued |
| Matching.WithHoldNameSound | modules/hog_interactions.mjs:53-56 | every hog the filter keeps was queued and carries a good of the given name |
| Matching.Competing | modules/hog_interactions.mjs:52-56 | the hogs a claimant competes with are queued for the same target |
| Matching.Rank | modules/hog_interactions.mjs:68-70 | a hog's rank is its tile's `tile_preferences` index, -1 exactly when the tile is absent |
| Matching.LastMaxIndex | modules/hog_interactions.mjs:66-74 | the position of the last maximal rank |
| Matching.LastMaxUnique | modules/hog_interactions.mjs:66-74 | that position is the only one that is maximal and has no equal after it |
| Matching.Disfavored | modules/hog_interactions.mjs:66-74 | the evicted hog is among the candidates, ranks no better than any of them, and every candidate after it ranks strictly better, so it is the last of the equally worst |
| Matching.ShiftPref | modules/hog_interactions.mjs:45 | `shift()` consumes the first preference, shrinking the total left |
| Matching.ConsultNext | modules/hog_interactions.mjs:41-76 | a hog without preferences is dropped; otherwise one preference is consumed and exactly one of three things happens: a hole or a wrong-kind target sends the hog to the back with the queue unchanged; a target with room appends the claim and drops the hog from the work list; a full target leaves the queue as it was and sends the booted hog to the back. The total preferences left, then the work list, decrease |
| Matching.ConsultTarget | modules/hog_interactions.mjs:45-75 | the same three cases for a hog with a preference left, each with its exact work list and queue |
| Matching.Boot | modules/hog_interactions.mjs:66-74 | at capacity, the hog sent to the back is the claimant or a competitor, ranked no better than every competitor and the claimant; a claimant ranked equal to the booted hog is the one booted |
| Matching.WithHoldNameAppend | modules/hog_interactions.mjs:55 | a queued hog adds to the count for its own good's name only |
| Matching.ConsultKeepsCapacity | modules/hog_interactions.mjs:52-75 | one consultation keeps every target's competing claims within `max_interactions` of the hog's good |
| Matching.CapacityAt | modules/hog_interactions.mjs:52-75 | the capacity bound for one target and hog survives a consultation |
| Matching.ConsultKeepsHogs | modules/hog_interactions.mjs:41-50 | `consult_next` changes only preferences, and every hog's preferences stay a suffix of its initial ones |
| Matching.ConsultKeepsClaims | modules/hog_interactions.mjs:52-76 | `consult_next` only adds claims by work-list hogs on targets of the phase's kind that they preferred |
| Matching.ConsultKeepsTrack | modules/hog_interactions.mjs:41-76 | claims are only ever made by work-list hogs on targets of the phase's kind that they preferred, and only preferences change |
| Matching.RunPhase | modules/hog_interactions.mjs:95-97 | the phase loop ends with an empty work list and a queue within capacity; every claim is by a work-list hog on a target of the phase's kind it preferred; every work-list hog holds a claim or gave up: every target of the phase's kind it tried had no room for it, and it used up all its preferences or left the list right after such a target |
| Matching.FullGrows | modules/hog_interactions.mjs:52-60 | a target with no room for a hog still has none after another claim is queued |
| Matching.TriedFullGrows | modules/hog_interactions.mjs:52-60 | every target a hog found without room stays so as claims are queued |
| Matching.FrontProgress | modules/hog_interactions.mjs:41-76 | a consulted hog left without a claim has used up one more preference; if that preference was a target of the phase's kind, it had no room and the queue is unchanged; the hog leaves the work list only after such a target |
| Matching.ProgressAt | modules/hog_interactions.mjs:41-76 | for one hog without a claim, a consultation keeps "every target of the phase's kind it tried had no room" and "it left the list only with its preferences used up or right after such a target" |
| Matching.ConsultKeepsProgress | modules/hog_interactions.mjs:41-76 | the same for every hog without a claim |
| Matching.ProgressSettles | modules/hog_interactions.mjs:95-97 | once the work list is empty, every work-list hog holds a claim or gave up: every target of the phase's kind it tried had no room for it, and it used up all its preferences or left the list right after such a target |
| Matching.Interact | modules/hog_interactions.mjs:32-36 | one resolved pair: a taker appends the cargo and empties the hog; a giver pops its last good into the hog |
| Matching.Resolve | modules/hog_interactions.mjs:32-36 | resolving changes only holdings and cargo |
| Matching.ResolveUntouched | modules/hog_interactions.mjs:32-36 | a facility with no pair is untouched |
| Matching.ResolveIdleHog | modules/hog_interactions.mjs:32-36 | a hog with no pair is untouched |
| Matching.ResolveTakerGrows | modules/hog_interactions.mjs:139-143 | a taker's holding grows by one entry per pair and keeps its old entries in front |
| Matching.ResolveGiverPops | modules/hog_interactions.mjs:181-184 | a giver loses exactly one good from the end per pair |
| Matching.ResolveNameCount | modules/hog_interactions.mjs:139-143 | a taker gains at most one good of a name per paired hog that set out with that name |
| Matching.ResolveEmptiesHands | modules/hog_interactions.mjs:139-143 | after drop-off every paired hog is empty-handed |
| Matching.NeighborPrefs | modules/basic_classes.mjs:351-358 | the rebuilt preferences are the facilities in front, to the right and to the left, in that order |
| Matching.ResetPrefs | modules/basic_classes.mjs:351-358 | a preference reset changes only the preferences |
| Matching.ResetListed | modules/hog_interactions.mjs:99-101 | the reset loop rebuilds exactly the listed hogs |
| Matching.Hopped | modules/hog_interactions.mjs:92 | the active hogs are exactly those with `hopped_from`, in the order of the hog sequence given (the board's order when that is `Board.hogs`) |
| Matching.WithCargo | modules/hog_interactions.mjs:93 | the holders (or seekers) among the active hogs are exactly those with (or without) cargo |
| Matching.DropOffBound | modules/hog_interactions.mjs:52-75 | after a phase, a target holds at most its capacity of claims for each name |
| Matching.PickUpBound | modules/hog_interactions.mjs:185-187 | a giver is never claimed more often than it has goods |
| Matching.DropOffFacts | modules/hog_interactions.mjs:94-98 | drop-off leaves givers alone, only extends takers' holdings, and overfills no shop input |
| Matching.TakerNameGrows | modules/hog_interactions.mjs:139-143 | resolving claims never lowers a taker's count of any name |
| Matching.TakerNameCount | modules/hog_interactions.mjs:139-143 | resolving claims raises a taker's count of a name by at most the number of queued hogs carrying that name |
| Matching.ShopInputCount | modules/hog_interactions.mjs:423-428 | after drop-off, a shop input holds no more of an ingredient than its recipe asks for, unless it already did, and gains no good its recipe does not use |
| Matching.PickUpFacts | modules/hog_interactions.mjs:103-107 | pick-up leaves takers alone and only removes goods from the end of givers' holdings |
| Matching.OutsideUntouched | modules/hog_interactions.mjs:92-107 | a hog outside the phase's list keeps everything but its preferences |
| Matching.ResetAll | modules/hog_interactions.mjs:80-85 | the preparation rebuilds every hog's preferences, each naming existing facilities |
| Matching.DropOffHalf | modules/hog_interactions.mjs:94-101 | the drop-off phase leaves givers and inactive hogs' cargo alone, only extends takers, overfills no shop input, and rebuilds nobody's preferences; every returned claim is by an active hog carrying a good, on a taker it preferred; every such hog holds a claim or found each taker it tried without room |
| Matching.PickUpHalf | modules/hog_interactions.mjs:103-107 | the pick-up phase leaves takers and inactive hogs' cargo alone and only pops givers; every returned claim is by an active empty-handed hog, on a giver it preferred; every such hog holds a claim or found each giver it tried without goods to spare |
| Matching.GaveUpTransfer | modules/hog_interactions.mjs:94-107 | drop-off leaves givers alone, so a hog that gave up at pick-up against the facilities after drop-off gave up against those before it |
| Matching.SettledTransfer | modules/hog_interactions.mjs:94-107 | the same for every hog of the pick-up list |
| Matching.ComposeEffects | modules/hog_interactions.mjs:92-107 | drop-off followed by pick-up: takers only gain entries, givers only lose entries from the end, and no shop input is overfilled |
| Matching.Phases | modules/hog_interactions.mjs:92-107 | the two phases over the active hogs: inactive hogs keep their cargo, takers only gain, givers only lose from the end, no shop input is overfilled; drop-off claims are by active holders on takers they preferred, and each such hog holds one or found every taker it tried without room; pick-up runs on `mid`, whose preferences are what drop-off left of the given ones, with the same guarantees for its empty-handed active hogs and givers |
| Matching.MatchInteractions | modules/hog_interactions.mjs:78-108 | hogs that did not move keep their cargo; takers only gain entries; givers only lose entries from the end; no shop input is overfilled; every drop-off claim is by a moved hog carrying a good, on a taker in front, right or left of it, and every such hog holds a claim or found each taker it tried without room; pick-up claims are by moved hogs empty-handed in `mid` on givers still among their preferences, which are what drop-off left of the rebuilt ones, and every such hog holds a claim or found each giver it tried without goods to spare |
| Matching.HoppedPrefsOnly | modules/hog_interactions.mjs:80-92 | rebuilding preferences does not change which hogs moved |
| Matching.WithCargoPrefsOnly | modules/hog_interactions.mjs:80-93 | rebuilding preferences does not change which hogs carry a good |
| Matching.ResetHogsFacts | modules/hog_interactions.mjs:80-85 | hogs after a phase on the rebuilt hogs differ from the originals only in cargo and preferences, and the preferences are what is left of the rebuilt ones |
| Matchmaker.NumberHeld | groundhogday.js:1055-1059 | the count of held resources with a name, zero exactly when none is held |
| Matchmaker.NumberHeldConcat | groundhogday.js:1055-1059 | counting over two holdings adds up |
| Matchmaker.Capacity | groundhogday.js:1049-1054 | 100 for a castle; `resource_count` for a giver; for a shop input, 0 while its output is stocked or for a good the recipe does not use, else the requirement minus what is held |
| Matchmaker.Replenish | groundhogday.js:775-778 | `replenish` sets the giver's capacity to its base count, and touches nothing else |
| Matchmaker.Mine | groundhogday.js:731 | the filter keeps no more flans than were queued |
| Matchmaker.MineSound | groundhogday.js:731 | every flan counted against the claimant was queued and holds the same thing, by identity or by name |
| Matchmaker.MineAppend | groundhogday.js:731 | a new claim counts only if its flan holds the same thing |
| Matchmaker.MineByNameKey | groundhogday.js:731 | compared by name, only the name of the key matters |
| Matchmaker.MineCargoOnly | groundhogday.js:731 | the count depends only on the flans' cargo |
| Matchmaker.FirstWorse | groundhogday.js:733-737 | the first queued flan ranked strictly worse than the claimant, or -1 when none is |
| Matchmaker.Prefers | groundhogday.js:730-739 | `true` exactly under capacity; otherwise `false` when no rival holding the same thing ranks worse, else the rival is the first queued flan holding the same thing that ranks worse |
| Matchmaker.ShiftPref | groundhogday.js:672 | `shift()` consumes the first preference, shrinking the total left |
| Matchmaker.ConsultNext | groundhogday.js:669-688 | no preferences: the flan is dropped; a hole or a wrong-kind target: the flan is requeued one preference shorter; `false`: requeued; `true`: the pair is added; a rival: the rival is requeued and the queue is unchanged because `remove_pair` drops the pair just added |
| Matchmaker.ConsultAccepted | groundhogday.js:677-687 | the queue changes only when `prefers` accepted, and then by exactly the new pair |
| Matchmaker.AcceptKeeps | groundhogday.js:677-681 | an accepted claim keeps every target within capacity when cargo is compared by name |
| Matchmaker.CapacityAt | groundhogday.js:669-688 | comparing by name, one consultation keeps each target's same-name claims within capacity |
| Matchmaker.ConsultKeepsCapacity | groundhogday.js:669-688 | comparing by name, a consultation keeps the whole queue within capacity |
| Matchmaker.TwoBerriesWellFormed | groundhogday.js:1049-1054 | a shop input wanting one berry has capacity one for berries |
| Matchmaker.FirstBerryAccepted | groundhogday.js:669-688 | the first berry carrier's claim is accepted |
| Matchmaker.SecondBerryVerdict | groundhogday.js:730-732 | compared by identity, the second berry is "not the same", so `prefers` accepts it too |
| Matchmaker.SecondBerryAcceptedAsWritten | groundhogday.js:669-688 | as written, the second claim is queued |
| Matchmaker.TwoBerriesOverCapacity | groundhogday.js:1049-1054 | two berry claims exceed a capacity of one |
| Matchmaker.IdentityOverfills | groundhogday.js:730-739 | as written, two consultations take a queue within capacity to one over it |
| Matchmaker.ByNameFits | groundhogday.js:730-739 | compared by name, the second berry carrier is refused and the queue stays within capacity |
| Matchmaker.ConsultKeepsTrack | groundhogday.js:669-688 | with either comparison, only preferences change, each to what is left of the initial ones, and claims are only made by work-list flans on targets of the phase's kind that they preferred |
| Matchmaker.PopKeepsFlans | groundhogday.js:672 | consuming one preference keeps every flan's preferences a suffix of its initial ones |
| Matchmaker.ConsultKeepsFlans | groundhogday.js:669-673 | a consultation changes only preferences, each staying a suffix of the initial ones |
| Matchmaker.FrontPrefOriginal | groundhogday.js:672 | the preference a flan takes is one of its initial preferences |
| Matchmaker.MineEmptyHanded | groundhogday.js:731 | for an empty-handed claimant the identity and by-name filters keep the same flans |
| Matchmaker.ConsultEmptyHanded | groundhogday.js:669-688 | consulting for an empty-handed flan does the same under both comparisons |
| Matchmaker.RunPhase | groundhogday.js:696-698 | with either comparison the phase loop ends with an empty work list, claims only by work-list flans on targets of the phase's kind they preferred, and every work-list flan holding a claim or having given up: `prefers` found no room for it at every target of the phase's kind it tried, and it used up all its preferences or left the list right after such a target; the queue stays within capacity when compared by name (the correction), and as written when every flan of the work list is empty-handed |
| Matchmaker.FullGrows | groundhogday.js:730-732 | a target with no room for a flan still has none after another claim is queued |
| Matchmaker.TriedFullGrows | groundhogday.js:730-732 | every target a flan found without room stays so as claims are queued |
| Matchmaker.FrontProgress | groundhogday.js:669-688 | a consulted flan left without a claim has used up one more preference; if that preference was a target of the phase's kind, `prefers` found no room and the queue is unchanged; the flan leaves the work list only after such a target |
| Matchmaker.ProgressAt | groundhogday.js:669-688 | for one flan without a claim, a consultation keeps "every target of the phase's kind it tried had no room" and "it left the list only with its preferences used up or right after such a target" |
| Matchmaker.ConsultKeepsProgress | groundhogday.js:669-688 | the same for every flan without a claim |
| Matchmaker.ProgressSettles | groundhogday.js:696-698 | once the work list is empty, every work-list flan holds a claim or gave up: `prefers` found no room for it at every target of the phase's kind it tried, and it used up all its preferences or left the list right after such a target |
| Matchmaker.Interact | groundhogday.js:754-786 | a taker pushes the cargo and empties the flan; a giver hands out a new resource of its type and decrements its count by one |
| Matchmaker.Resolve | groundhogday.js:644-648 | resolving changes only holdings, counts and cargo |
| Matchmaker.ResolveUntouched | groundhogday.js:644-648 | a facility without pairs is untouched |
| Matchmaker.ResolveIdleFlan | groundhogday.js:644-648 | a flan without pairs is untouched |
| Matchmaker.ResolveGiverCount | groundhogday.js:782-786 | a giver's count drops by exactly one per resolved pair |
| Matchmaker.ResolveTakerGrows | groundhogday.js:754-758 | a taker's holding grows by one entry per pair, its old entries first |
| Matchmaker.ResolveNameCount | groundhogday.js:754-758 | a taker gains at most one resource of a name per paired flan that set out with that name |
| Matchmaker.NumberHeldGrows | groundhogday.js:1055-1059 | extending a holding never lowers a count |
| Matchmaker.MineHasSelf | groundhogday.js:731 | a queued flan counts against itself |
| Matchmaker.MineAll | groundhogday.js:731 | when every queued flan carries the key's name, all of them count |
| Matchmaker.NamedBound | groundhogday.js:730-739 | after a phase, a target's claims by carriers of a name stay within its capacity for that name |
| Matchmaker.NoCapacityNoClaims | groundhogday.js:1049-1054 | a target with no capacity for any key gets no claims |
| Matchmaker.ShopInputCount | groundhogday.js:1049-1054 | after drop-off, a shop input whose output was stocked gains nothing, and otherwise holds no more of an ingredient than its recipe asks for, unless it already did |
| Matchmaker.PickUpBound | groundhogday.js:787-789 | a giver is claimed at most `resource_count` times |
| Matchmaker.DropOffFacts | groundhogday.js:695-699 | drop-off leaves givers alone; a taker's holding grows by one entry per queued pair with the old entries first |
| Matchmaker.DropOffNoOverfill | groundhogday.js:695-699 | drop-off overfills no shop input |
| Matchmaker.PickUpFacts | groundhogday.js:705-709 | pick-up leaves takers alone and lowers each giver's count by its number of pairs, never below zero |
| Matchmaker.OutsideUntouched | groundhogday.js:689-712 | a flan outside the phase's list keeps everything but its preferences |
| Matchmaker.ResetPrefs | groundhogday.js:348 | a preference reset changes only the preferences |
| Matchmaker.ResetListed | groundhogday.js:701-703 | the reset loop rebuilds exactly the listed flans |
| Matchmaker.ResetInRange | groundhogday.js:701-703 | after the reset every preference names an existing facility |
| Matchmaker.Active | groundhogday.js:693 | the active flans are exactly those with `hopped_from`, in the order of the flan sequence given (the board's order when that is the board's flan list) |
| Matchmaker.WithCargo | groundhogday.js:695 | the holders (or seekers) are exactly the active flans with (or without) cargo |
| Matchmaker.DropOffHalf | groundhogday.js:695-699 | with either comparison, the drop-off phase leaves givers and inactive flans' cargo alone and each taker grows by its pairs; every returned claim is by an active flan carrying something, on a taker it preferred, and every such flan holds a claim or found each taker it tried without room; compared by name (the correction) no shop input is overfilled |
| Matchmaker.ResolveOids | groundhogday.js:782-786 | every pick-up pair creates one new resource |
| Matchmaker.PickUpHalf | groundhogday.js:705-709 | with either comparison (they agree for empty-handed seekers), the pick-up phase leaves takers alone and lowers each giver's count by its pairs, within `resource_count`; every returned claim is by an active empty-handed flan, on a giver it preferred, and every such flan holds a claim or found each giver it tried out of count |
| Matchmaker.GaveUpTransfer | groundhogday.js:695-709 | drop-off leaves givers alone, so a flan that gave up at pick-up against the facilities after drop-off gave up against those before it |
| Matchmaker.SettledTransfer | groundhogday.js:695-709 | the same for every flan of the pick-up list |
| Matchmaker.ResetAll | groundhogday.js:652-668 | the constructor rebuilds every flan's preferences |
| Matchmaker.WiredKept | groundhogday.js:903-965 | matching never rewires a shop's input to another output |
| Matchmaker.ComposeHalves | groundhogday.js:689-712 | pick-up touches no shop input, so an input not overfilled after drop-off stays so |
| Matchmaker.ComposeEffects | groundhogday.js:689-712 | the two phases compose: givers lose only the pick-up pairs and takers gain only the drop-off pairs |
| Matchmaker.Phases | groundhogday.js:695-709 | with either comparison, drop-off, reset of the active flans, pick-up: inactive flans keep their cargo; each taker grows by its drop-off pairs; each giver gives once per pick-up pair within its count; drop-off claims are by active holders on takers they preferred, and each such flan holds one or found every taker it tried without room; in `mid`, the flans as pick-up starts, every active flan's preferences are rebuilt from the tiles in front, right and left of it, and pick-up claims are by active flans empty-handed in `mid` on givers among those rebuilt preferences, each such flan holding one or having found every giver it tried out of count; compared by name (the correction) no shop input is overfilled |
| Matchmaker.ResetThenPickUp | groundhogday.js:701-709 | the reset of every active flan, then pick-up: each active flan's preferences are rebuilt from the tiles around it; pick-up claims are by active empty-handed flans on givers among those preferences, and every such flan holds a claim or found each giver it tried out of count, against the facilities as they were before drop-off |
| Matchmaker.ResetMid | groundhogday.js:701-703 | the reset rebuilds each active flan's preferences from where it stands, which drop-off does not change |
| Matchmaker.SameKinds | groundhogday.js:695-699 | a claim on a giver after drop-off is on a giver before it |
| Matchmaker.Match | groundhogday.js:689-712 | with either comparison, flans that did not move keep their cargo; each giver's count drops by its pick-up pairs, within capacity; each taker grows by its drop-off pairs; one object id is used per resource handed out; every drop-off claim is by a moved flan carrying something, on a taker in front, right or left of it, and every such flan holds a claim or found each taker it tried without room; in `mid`, the flans as pick-up starts, every moved flan's preferences are rebuilt from the tiles around it, and pick-up claims are by moved flans empty-handed in `mid` on givers among those, each such flan holding one or having found every giver it tried out of count; compared by name (the correction) no shop input is overfilled |
| Matchmaker.ActivePrefsOnly | groundhogday.js:652-668 | rebuilding preferences does not change which flans moved |
| Matchmaker.WithCargoPrefsOnly | groundhogday.js:652-668 | rebuilding preferences does not change which flans carry something |
| Matchmaker.ResetClaims | groundhogday.js:652-668 | a claim on a rebuilt preference is on a facility in front, right or left of the flan |
| Matchmaker.FindIndex | groundhogday.js:1067-1069 | `findIndex` is -1 exactly when the name is not held, else the first entry with that name |
| Matchmaker.DropEntryCount | groundhogday.js:1067-1069 | removing one entry lowers only its own name's count, by one |
| Matchmaker.RemoveHeld | groundhogday.js:1067-1069 | `splice(findIndex, 1)` removes one entry, the last one when the name is absent |
| Matchmaker.RemoveHeldCount | groundhogday.js:1067-1069 | removing a held name lowers its count by one and no other count |
| Matchmaker.RemoveTimes | groundhogday.js:1062-1064 | n calls of `removeHeld` shorten the holding by n, down to empty, whether or not the name is held |
| Matchmaker.RemoveTimesCount | groundhogday.js:1060-1066 | removing a name n times lowers its count, and the length, by exactly n |
| Matchmaker.Removed | groundhogday.js:1060-1066 | a name no recipe part uses is never removed |
| Matchmaker.InputCraft | groundhogday.js:1060-1066 | `ShopInput.craft` shortens the holding by the recipe's total amount, down to empty |
| Matchmaker.InputCraftCount | groundhogday.js:1060-1066 | `ShopInput.craft` removes exactly the required number of each name |
| Matchmaker.RemovedDistinct | groundhogday.js:1060-1066 | with distinct part names, a part's name is removed exactly its amount times |
| Matchmaker.ShopCraft | groundhogday.js:959-965 | without every part held nothing changes; otherwise the input is crafted, the output's count is set to the recipe's amount, and no other facility changes |
| Matchmaker.ShopCraftCounts | groundhogday.js:1144-1146 | crafting lowers each part's count by exactly its amount, leaves other names alone, and a stocked output closes the input |
| Matchmaker.CraftShops | groundhogday.js:236-240 | crafting every shop leaves castles, bushes and trees alone |

## Left out

- Rendering, canvas drawing, the isometric projection, keyboard and mouse
  handling, DOM and jQuery code, and the load-time bootstrap. They only
  present the state.
- Loading goods, recipes and images from the network. The tables are
  parameters instead.
- Presentation-only helpers: `direction_of`, graphic getters, `spriteData`,
  `center_offset`, `pic_list`. They do not affect the simulation.
- The modular version's broken wiring:
  - the missing `Matchmaker` export;
  - `board.interactables`;
  - the shops' undefined `shop.direction`.
  `match_interactions` is modelled over explicit facilities and an explicit
  `facAt` table instead.
- `previous_holding`, `gave_to`, `took_from`, `previous_resource_count` and
  `previous_stack_position`. These are snapshots kept for the renderer.
- Houses, `move_to` and `recall`. They are editing tools, outside the
  tick.
- `JsMath.Mod`: a modulus of 0 (JavaScript returns `NaN`) is excluded by
  its precondition. The board is never zero-sized.
- `Goods.NewGood`: an owner number of `MAX_PLAYERS` or more is excluded.
  The source would write past the array.
- `Movement.Step`: the recursion runs on a fuel budget. A budget too small
  for a long procession ends in `Failure(OutOfFuel)`, where the source
  would keep recursing.
- `Movement.MarkLoop`: the walk is bounded by the number of hogs. A walk
  that does not close within that bound is reported as `EndlessWalk`; the
  source has no bound.
- `Movement.ClosingACycleLoops`: states the loop case only when `Step`
  succeeds, because marking the loop can fail as above.
- `Tick.TickMoves`: `Board.step` also calls the matcher and `craft_shops`.
  Those are modelled separately (`Matchmaker.Match`,
  `Matchmaker.CraftShops`), not composed with the movement tick, because a
  flan's movement fields and its matching fields live in separate
  datatypes here.
- `Goods.AggregateArrays` and `Goods.AggregatePrefix`: where a later array
  is shorter than the first, the source's `e + undefined` yields NaN
  entries and carries on; the model reports this as `Failure(NaNEntry)`.
  Every value array the program builds has `MAX_PLAYERS` entries, so no run
  of the source reaches that case.
- `Movement.Advance` and `Movement.HogCompetingForT`: on a board one tile
  wide or high the competitor found can be the probe hog itself. The source
  does not throw there: it calls `hog_competing_for_t()` a second time and
  steps the detached probe that call returns (basic_classes.mjs:528-529).
  The model stops with `DetachedProbe` instead of following that probe.
- `Matchmaker.Replenish` and `Facilities.Replenish`: modelled, but nothing
  in the tick calls them, as in the source.
- `Matchmaker.ShopCraftCounts`: the exact per-name count needs the
  recipe's part names to be distinct. With a repeated name, only
  `Matchmaker.InputCraftCount`'s summed form holds.
- `Matching.MatchInteractions`: requires every shop input's product to be
  in the goods table. Otherwise the source throws on `undefined.recipe`
  (`recipeRequires` reads `goods[target_good].recipe`).
- `Matching.Disfavored`: relies on `Array.prototype.sort` being stable,
  which ECMAScript requires since its 2019 edition. Among equally ranked
  claimants, the one booted is the last in queue order, with the new
  claimant last of all.
- `Matchmaker.NamedBound`: stated for a queue within every target's by-name
  capacity. Only the corrected by-name comparison keeps a drop-off queue
  there; with the `===` comparison as written a shop input can be
  overfilled (see Findings).
- `Matchmaker.ShopInputCount`: the same by-name capacity premise as
  `NamedBound`, so it too speaks only of the corrected comparison.
- `Matchmaker.DropOffNoOverfill`: the same premise; it is what the corrected
  drop-off phase promises, not the program as written.
- `Matchmaker.RunPhase`: "within capacity" is promised only for the by-name
  comparison, or when every flan of the work list is empty-handed.
- `Matchmaker.DropOffHalf`: "no shop input is overfilled" is promised only
  for the by-name comparison.
- `Matchmaker.Phases`: the same; every other clause holds for both
  comparisons.
- `Matchmaker.Match`: the same; every other clause holds for both
  comparisons.
- Facility `tile_preferences` are given directly. The preference matrices
  and their rotation into tile lists are covered only by
  `Matrix.RotateMatrix` and `Grid.TilesFromMatrix`.

## Findings

| source | as written | input that shows it | evidently intended | confidence | as-written member | corrected member |
|---|---|---|---|---|---|---|
| groundhogday.js:730-739 | `prefers` counts the queued flans whose `holding` is the identical object (`===`) as the claimant's, so every carried resource counts as different from every other | two flans, each carrying its own `berry` resource, both claim a shop input whose recipe needs one berry: both claims are accepted, so both are queued against a capacity of one | count the queued flans carrying a good of the same name, as the modular `consult_next` does (modules/hog_interactions.mjs:55), so that a shop input never takes more than its recipe asks for | not executed | Matchmaker.IdentityOverfills | Matchmaker.ConsultKeepsCapacity |
