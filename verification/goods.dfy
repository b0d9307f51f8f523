/**
  Goods and their value arrays (`aggregate_arrays` and the `Good` constructor).
  The goods table that the repository loads from a JSON file is a parameter here,
  and values are restricted to integers.
*/
module Goods {
  import opened Wrappers

  /** `MAX_PLAYERS`: the length of a raw good's value array. */
  const MaxPlayers: nat := 8

  /** One `[ingredient, amount]` pair of a recipe. */
  datatype RecipePart = RecipePart(name: string, amount: int)

  /** One entry of the goods table. */
  datatype GoodInfo = GoodInfo(crafted: bool, baseValue: int, valueMultiplier: int, recipe: seq<RecipePart>)

  type GoodsTable = map<string, GoodInfo>

  /** A good: its name and one value per player. */
  datatype Good = Good(name: string, valueArray: seq<int>)

  /** Why JavaScript would not produce a clean integer array. */
  datatype GoodsError =
    | EmptyReduce      // `reduce` of no arrays without an initial value throws
    | NaNEntry         // a later array is shorter than the first: `e + undefined` is NaN
    | UnknownGood      // `goods[name]` is undefined, so reading `.type` throws
    | NotAGood         // an input entry is `false`, whose `value_array` is undefined

  /** Entry `i` of every array, added up. */
  function SumAt(args: seq<seq<int>>, i: int): int
    requires forall k :: 0 <= k < |args| ==> 0 <= i < |args[k]|
  {
    if |args| == 0 then 0
    else
      var last := |args| - 1;
      assert 0 <= i < |args[last]|;
      assert forall k :: 0 <= k < last ==> args[..last][k] == args[k];
      SumAt(args[..last], i) + args[last][i]
  }

  /** Every array is at least as long as the first one. */
  predicate LongEnough(args: seq<seq<int>>)
    requires |args| > 0
  {
    forall k :: 0 <= k < |args| ==> |args[k]| >= |args[0]|
  }

  /** `args.slice(0, n).reduce(...)`: the running element-wise sum of the first `n` arrays. */
  function AggregatePrefix(args: seq<seq<int>>, n: nat): (r: Result<seq<int>, GoodsError>)
    requires 0 < n <= |args|
    ensures r.Success? <==> LongEnough(args[..n])
    ensures r.Failure? ==> r.error == NaNEntry
    ensures r.Success? ==> |r.value| == |args[0]|
    ensures r.Success? ==> forall i :: 0 <= i < |args[0]| ==> r.value[i] == SumAt(args[..n], i)
  {
    if n == 1 then
      assert args[..1] == [args[0]];
      assert forall i :: 0 <= i < |args[0]| ==> SumAt(args[..1], i) == SumAt([], i) + args[0][i];
      Success(args[0])
    else
      var prev := AggregatePrefix(args, n - 1);
      assert args[..n][..n - 1] == args[..n - 1];
      if prev.Failure? then
        prev
      else if |args[n - 1]| < |args[0]| then
        Failure(NaNEntry)
      else
        Success(seq(|prev.value|, i requires 0 <= i < |prev.value| => prev.value[i] + args[n - 1][i]))
  }

  /**
    `aggregate_arrays(...args)`: the element-wise sum of its arguments, as long as
    the first.  With no argument `reduce` throws.
  */
  function AggregateArrays(args: seq<seq<int>>): (r: Result<seq<int>, GoodsError>)
    ensures |args| == 0 ==> r == Failure(EmptyReduce)
    ensures r.Success? <==> |args| > 0 && LongEnough(args)
    ensures r.Success? ==> |r.value| == |args[0]|
    ensures r.Success? ==> forall i :: 0 <= i < |args[0]| ==> r.value[i] == SumAt(args, i)
  {
    if |args| == 0 then Failure(EmptyReduce)
    else
      assert args[..|args|] == args;
      AggregatePrefix(args, |args|)
  }

  /** A single argument comes back unchanged. */
  lemma AggregateSingle(a: seq<int>)
    ensures AggregateArrays([a]) == Success(a)
  {
    var r := AggregateArrays([a]);
    assert forall i :: 0 <= i < |a| ==> SumAt([a], i) == a[i] by {
      forall i | 0 <= i < |a| ensures SumAt([a], i) == a[i] {
        assert [a][..0] == [];
      }
    }
    assert r.value == a;
  }

  /**
    `new Good(name, input_values_table, owner_number)`.  A crafted good's values are
    the summed input arrays times the table's multiplier; any other good gets
    `MAX_PLAYERS` zeros with its base value at the owner's index.
  */
  function NewGood(table: GoodsTable, name: string, inputValues: seq<seq<int>>, owner: nat): (r: Result<Good, GoodsError>)
    requires owner < MaxPlayers
    ensures name !in table ==> r == Failure(UnknownGood)
    ensures name in table && table[name].crafted && |inputValues| == 0 ==> r == Failure(EmptyReduce)
    ensures r.Success? ==> r.value.name == name
    ensures name in table && !table[name].crafted ==>
              && r.Success?
              && |r.value.valueArray| == MaxPlayers
              && r.value.valueArray[owner] == table[name].baseValue
              && forall i :: 0 <= i < MaxPlayers && i != owner ==> r.value.valueArray[i] == 0
    ensures name in table && table[name].crafted ==>
              && (r.Success? <==> |inputValues| > 0 && LongEnough(inputValues))
              && (r.Success? ==>
                    && |r.value.valueArray| == |inputValues[0]|
                    && forall i :: 0 <= i < |inputValues[0]| ==>
                         r.value.valueArray[i] == table[name].valueMultiplier * SumAt(inputValues, i))
  {
    if name !in table then Failure(UnknownGood)
    else
      var info := table[name];
      if info.crafted then
        var total :- AggregateArrays(inputValues);
        Success(Good(name, seq(|total|, i requires 0 <= i < |total| => total[i] * info.valueMultiplier)))
      else
        Success(Good(name, seq(MaxPlayers, i => if i == owner then info.baseValue else 0)))
  }
}
