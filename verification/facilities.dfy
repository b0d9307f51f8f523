/**
  Facilities (`Interactable` and its subclasses in the modular version): what
  they hold, how many hogs they accept per tick (`max_interactions`), what an
  interaction does (`take_from`, `give_to`) and how a shop crafts.
*/
module Facilities {
  import opened Wrappers
  import opened Grid
  import opened Goods

  /**
    The kind of a facility.  Castles and shop inputs are takers; berry bushes,
    trees and shop outputs are givers.
  */
  datatype Kind =
    | Castle
    | Giver(resourceType: string)
    | ShopInput(target: string)
    | ShopOutput(target: string)

  predicate IsTaker(k: Kind) {
    k.Castle? || k.ShopInput?
  }

  predicate IsGiver(k: Kind) {
    k.Giver? || k.ShopOutput?
  }

  /**
    A facility: its kind, its `tile_preferences` (entries may be holes) and its
    `holding` list.  Takers push whatever the hog carries, so an entry may be
    `false` (`None`).
  */
  datatype Facility = Facility(kind: Kind, tilePrefs: seq<Option<Tile>>, holding: seq<Option<Good>>)

  /** `Taker.max_interactions`: "a very large number, to simulate infinity". */
  const TakerCapacity: int := 100

  /** `numberHeld(name)`: how many held entries are goods of that name. */
  function NumberHeld(holding: seq<Option<Good>>, name: string): (n: nat)
    ensures n <= |holding|
  {
    if |holding| == 0 then 0
    else
      var last := holding[|holding| - 1];
      NumberHeld(holding[..|holding| - 1], name) + (if last.Some? && last.value.name == name then 1 else 0)
  }

  /** No good of that name is held exactly when the count is zero. */
  lemma {:induction false} NumberHeldZero(holding: seq<Option<Good>>, name: string)
    ensures NumberHeld(holding, name) == 0 <==>
              forall k :: 0 <= k < |holding| ==> holding[k].None? || holding[k].value.name != name
  {
    if |holding| > 0 {
      NumberHeldZero(holding[..|holding| - 1], name);
      assert forall k :: 0 <= k < |holding| - 1 ==> holding[..|holding| - 1][k] == holding[k];
    }
  }

  lemma {:induction false} NumberHeldAppend(holding: seq<Option<Good>>, e: Option<Good>, name: string)
    ensures NumberHeld(holding + [e], name) ==
              NumberHeld(holding, name) + (if e.Some? && e.value.name == name then 1 else 0)
  {
    assert (holding + [e])[..|holding|] == holding;
  }

  /** `recipe.find(pair => pair[0] === name)`: the first part for that ingredient. */
  function RecipeRequires(recipe: seq<RecipePart>, name: string): (r: Option<RecipePart>)
    ensures r.None? <==> forall k :: 0 <= k < |recipe| ==> recipe[k].name != name
    ensures r.Some? ==> r.value in recipe && r.value.name == name
    ensures r.Some? ==> exists k :: 0 <= k < |recipe| && recipe[k] == r.value &&
                                   forall j :: 0 <= j < k ==> recipe[j].name != name
  {
    if |recipe| == 0 then None
    else if recipe[0].name == name then Some(recipe[0])
    else
      var r := RecipeRequires(recipe[1..], name);
      if r.Some? then
        var k :| 0 <= k < |recipe[1..]| && recipe[1..][k] == r.value &&
                 forall j :: 0 <= j < k ==> recipe[1..][j].name != name;
        assert recipe[k + 1] == r.value;
        r
      else r
  }

  /** Every shop input works towards a good the table knows. */
  predicate ShopKnown(table: GoodsTable, f: Facility) {
    f.kind.ShopInput? ==> f.kind.target in table
  }

  /**
    `max_interactions(key)`: unbounded for a castle; the number of goods held for
    a giver; for a shop input, what the recipe asks for of that ingredient minus
    what is already held, or nothing if the recipe does not use it.  The shop
    input's "output stocked" guard reads a `resource_count` the modular shop
    output never sets, so it never fires.
  */
  function Capacity(table: GoodsTable, f: Facility, key: string): (c: int)
    requires ShopKnown(table, f)
    ensures f.kind.Castle? ==> c == TakerCapacity
    ensures IsGiver(f.kind) ==> c == |f.holding| && c >= 0
    ensures f.kind.ShopInput? && RecipeRequires(table[f.kind.target].recipe, key).None? ==> c == 0
    ensures f.kind.ShopInput? && RecipeRequires(table[f.kind.target].recipe, key).Some? ==>
              c + NumberHeld(f.holding, key) == RecipeRequires(table[f.kind.target].recipe, key).value.amount
  {
    match f.kind
    case Castle => TakerCapacity
    case Giver(_) => |f.holding|
    case ShopOutput(_) => |f.holding|
    case ShopInput(target) =>
      match RecipeRequires(table[target].recipe, key)
      case None => 0
      case Some(part) => part.amount - NumberHeld(f.holding, key)
  }

  /** `Taker.take_from(hog)`: the hog's cargo, even `false`, is pushed; the hog ends empty-handed. */
  function TakeFrom(f: Facility, cargo: Option<Good>): (r: (Facility, Option<Good>))
    ensures r.0 == f.(holding := f.holding + [cargo])
    ensures r.1.None?
  {
    (f.(holding := f.holding + [cargo]), None)
  }

  /**
    `Giver.give_to(hog)`: the hog receives `holding.pop()`, the last good held
    (`undefined`, here `None`, if there is none).
  */
  function GiveTo(f: Facility): (r: (Facility, Option<Good>))
    ensures |f.holding| > 0 ==> r.0.holding + [r.1] == f.holding
    ensures |f.holding| == 0 ==> r == (f, None)
    ensures r.0.kind == f.kind && r.0.tilePrefs == f.tilePrefs
  {
    if |f.holding| == 0 then (f, None)
    else (f.(holding := f.holding[..|f.holding| - 1]), f.holding[|f.holding| - 1])
  }

  /**
    `Giver.replenish()`: `baseResourceCount` fresh goods of the giver's
    `resourceType`, each built as `new Good(resourceType, [], 0)`.  A berry bush
    or tree gets its own base count; a shop output's base count is 0, so its
    holding is emptied and no good is built.
  */
  function Replenish(table: GoodsTable, f: Facility, baseCount: nat): (r: Result<Facility, GoodsError>)
    requires IsGiver(f.kind)
    ensures r.Success? ==> r.value.kind == f.kind && r.value.tilePrefs == f.tilePrefs
    ensures f.kind.ShopOutput? ==> r.Success? && r.value.holding == []
    ensures f.kind.Giver? ==>
              (r.Success? <==> baseCount == 0 || (f.kind.resourceType in table && !table[f.kind.resourceType].crafted))
    ensures f.kind.Giver? && r.Failure? ==>
              r.error == (if f.kind.resourceType in table then EmptyReduce else UnknownGood)
    ensures f.kind.Giver? && r.Success? ==> |r.value.holding| == baseCount
    ensures f.kind.Giver? && r.Success? ==> forall k :: 0 <= k < baseCount ==>
              && r.value.holding[k].Some?
              && r.value.holding[k].value.name == f.kind.resourceType
              && |r.value.holding[k].value.valueArray| == MaxPlayers
              && r.value.holding[k].value.valueArray[0] == table[f.kind.resourceType].baseValue
              && forall i :: 1 <= i < MaxPlayers ==> r.value.holding[k].value.valueArray[i] == 0
  {
    if f.kind.ShopOutput? || baseCount == 0 then Success(f.(holding := []))
    else
      var good :- NewGood(table, f.kind.resourceType, [], 0);
      Success(f.(holding := seq(baseCount, _ => Some(good))))
  }

  /**
    After a replenish a giver accepts exactly its base count of hogs per tick
    (a shop output none), and replenishing it again gives the same facility.
  */
  lemma ReplenishRefills(table: GoodsTable, f: Facility, baseCount: nat, key: string)
    requires IsGiver(f.kind)
    requires Replenish(table, f, baseCount).Success?
    ensures Capacity(table, Replenish(table, f, baseCount).value, key) == (if f.kind.Giver? then baseCount else 0)
    ensures Replenish(table, Replenish(table, f, baseCount).value, baseCount) == Replenish(table, f, baseCount)
  {
  }

  /** Every part of the recipe is held in at least the required amount. */
  predicate AllPartsHeld(recipe: seq<RecipePart>, holding: seq<Option<Good>>) {
    forall k :: 0 <= k < |recipe| ==> recipe[k].amount <= NumberHeld(holding, recipe[k].name)
  }

  /** The value arrays of the held goods, or `NotAGood` when an entry is `false`. */
  function ValueArrays(holding: seq<Option<Good>>): (r: Result<seq<seq<int>>, GoodsError>)
    ensures r.Success? <==> forall k :: 0 <= k < |holding| ==> holding[k].Some?
    ensures r.Success? ==> |r.value| == |holding|
    ensures r.Success? ==> forall k :: 0 <= k < |holding| ==> r.value[k] == holding[k].value.valueArray
    ensures r.Failure? ==> r.error == NotAGood
  {
    if |holding| == 0 then Success([])
    else
      var rest :- ValueArrays(holding[1..]);
      if holding[0].None? then Failure(NotAGood)
      else
        assert forall k :: 1 <= k < |holding| ==> holding[k] == holding[1..][k - 1];
        Success([holding[0].value.valueArray] + rest)
  }

  /**
    `Shop.craft()`: nothing happens unless every recipe part is held; then the
    product is made, the input is emptied and the output holds exactly the
    product.  A crafted product's values are the summed value arrays of
    everything in the input times the multiplier, so a `false` entry (whose
    `value_array` is undefined) makes `aggregate_arrays` throw; a raw product
    ignores the input and is valued for player 0.
  */
  function ShopCraft(table: GoodsTable, target: string, input: Facility, output: Facility)
    : (r: Result<(Facility, Facility), GoodsError>)
    ensures target !in table ==> r == Failure(UnknownGood)
    ensures target in table && !AllPartsHeld(table[target].recipe, input.holding) ==> r == Success((input, output))
    ensures target in table && AllPartsHeld(table[target].recipe, input.holding) && r.Success? ==>
              && r.value.0 == input.(holding := [])
              && |r.value.1.holding| == 1
              && r.value.1.holding[0].Some?
              && r.value.1.holding[0].value.name == target
              && r.value.1.kind == output.kind
    ensures target in table && AllPartsHeld(table[target].recipe, input.holding) && !table[target].crafted ==>
              && r.Success?
              && var values := r.value.1.holding[0].value.valueArray;
                 && |values| == MaxPlayers && values[0] == table[target].baseValue
                 && forall i :: 0 < i < MaxPlayers ==> values[i] == 0
    ensures (&& target in table && table[target].crafted
             && AllPartsHeld(table[target].recipe, input.holding)
             && exists k :: 0 <= k < |input.holding| && input.holding[k].None?)
            ==> r == Failure(NotAGood)
    ensures target in table && table[target].crafted && AllPartsHeld(table[target].recipe, input.holding) ==>
              var arrays := ValueArrays(input.holding);
              && (r.Success? <==> arrays.Success? && |input.holding| > 0 && LongEnough(arrays.value))
              && (r.Success? ==>
                    && |arrays.value| > 0 && LongEnough(arrays.value)
                    && var values := r.value.1.holding[0].value.valueArray;
                       && |values| == |arrays.value[0]|
                       && forall i :: 0 <= i < |values| ==>
                            values[i] == table[target].valueMultiplier * SumAt(arrays.value, i))
  {
    if target !in table then Failure(UnknownGood)
    else if !AllPartsHeld(table[target].recipe, input.holding) then Success((input, output))
    else if !table[target].crafted then
      // a raw good is made without looking at its inputs
      var product := NewGood(table, target, [], 0).value;
      Success((input.(holding := []), output.(holding := [Some(product)])))
    else
      var values :- ValueArrays(input.holding);
      var product :- NewGood(table, target, values, 0);
      Success((input.(holding := []), output.(holding := [Some(product)])))
  }

  /**
    A raw product is made even from an input holding `false`, the entry a
    taker pushes for a hog paired twice: only a crafted product reads the
    inputs' value arrays.
  */
  lemma RawCraftIgnoresFalse()
    ensures var table := map["berry" := GoodInfo(false, 1, 1, [])];
            var r := ShopCraft(table, "berry", Facility(ShopInput("berry"), [], [None]), Facility(ShopOutput("berry"), [], []));
            && r.Success?
            && r.value.0.holding == []
            && r.value.1.holding == [Some(Good("berry", [1, 0, 0, 0, 0, 0, 0, 0]))]
  {
    var table := map["berry" := GoodInfo(false, 1, 1, [])];
    var r := ShopCraft(table, "berry", Facility(ShopInput("berry"), [], [None]), Facility(ShopOutput("berry"), [], []));
    var values := r.value.1.holding[0].value.valueArray;
    assert values == [1, 0, 0, 0, 0, 0, 0, 0];
  }
}
