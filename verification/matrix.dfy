/** `rotateMatrix` from the interaction module: counter-clockwise rotation of a layout matrix. */
module Matrix {
  import opened Wrappers
  import opened Grid

  /**
    Reading `matrix[j][i]` in JavaScript: a row shorter than `i + 1` yields
    `undefined`, which every consumer treats like a hole.
  */
  function CellAt(m: seq<seq<Cell>>, j: int, i: int): Cell
  {
    if 0 <= j < |m| && 0 <= i < |m[j]| then m[j][i] else None
  }

  /** Every row has `cols` cells. */
  ghost predicate Rectangular(m: seq<seq<Cell>>, cols: int)
  {
    forall j :: 0 <= j < |m| ==> |m[j]| == cols
  }

  /** The rotated matrix as a value: `matrix[0].length` rows of `matrix.length` cells. */
  function Rotated(m: seq<seq<Cell>>): seq<seq<Cell>>
    requires |m| > 0
  {
    seq(|m[0]|, i requires 0 <= i < |m[0]| => seq(|m|, j requires 0 <= j < |m| => CellAt(m, |m| - 1 - j, i)))
  }

  /**
    `rotateMatrix(matrix)`: the loop nest of the source, which fills
    `output[i][j] = matrix[matrix.length - j - 1][i]`.  An empty matrix is
    rejected because `matrix[0].length` throws on it.
  */
  method RotateMatrix(m: seq<seq<Cell>>) returns (out: seq<seq<Cell>>)
    requires |m| > 0
    ensures |out| == |m[0]|
    ensures Rectangular(out, |m|)
    ensures forall i, j :: 0 <= i < |out| && 0 <= j < |m| ==> out[i][j] == CellAt(m, |m| - 1 - j, i)
    ensures out == Rotated(m)
  {
    out := [];
    var i := 0;
    while i < |m[0]|
      invariant 0 <= i <= |m[0]|
      invariant |out| == i
      invariant forall i' :: 0 <= i' < i ==> out[i'] == Rotated(m)[i']
    {
      var row: seq<Cell> := [];
      var j := 0;
      while j < |m|
        invariant 0 <= j <= |m|
        invariant |row| == j
        invariant forall j' :: 0 <= j' < j ==> row[j'] == CellAt(m, |m| - j' - 1, i)
      {
        row := row + [CellAt(m, |m| - j - 1, i)];
        j := j + 1;
      }
      out := out + [row];
      i := i + 1;
    }
  }

  /** Rotating a rectangular matrix gives a rectangular matrix with rows and columns swapped. */
  lemma RotatedShape(m: seq<seq<Cell>>, cols: int)
    requires |m| > 0 && Rectangular(m, cols)
    ensures |Rotated(m)| == cols
    ensures Rectangular(Rotated(m), |m|)
  {
  }

  /** Two rotations turn a rectangular matrix upside down and back to front. */
  lemma {:induction false} RotatedTwice(m: seq<seq<Cell>>, cols: int)
    requires |m| > 0 && cols > 0 && Rectangular(m, cols)
    ensures |Rotated(Rotated(m))| == |m|
    ensures Rectangular(Rotated(Rotated(m)), cols)
    ensures forall j, i :: 0 <= j < |m| && 0 <= i < cols ==>
              Rotated(Rotated(m))[j][i] == m[|m| - 1 - j][cols - 1 - i]
  {
    var r := Rotated(m);
    RotatedShape(m, cols);
    RotatedShape(r, |m|);
    forall j, i | 0 <= j < |m| && 0 <= i < cols
      ensures Rotated(r)[j][i] == m[|m| - 1 - j][cols - 1 - i]
    {
      assert Rotated(r)[j][i] == CellAt(r, cols - 1 - i, j);
      assert r[cols - 1 - i][j] == CellAt(m, |m| - 1 - j, cols - 1 - i);
    }
  }

  /** Four rotations give back a rectangular input with at least one column. */
  lemma {:induction false} RotatedFourTimes(m: seq<seq<Cell>>, cols: int)
    requires |m| > 0 && cols > 0 && Rectangular(m, cols)
    ensures Rotated(Rotated(Rotated(Rotated(m)))) == m
  {
    var h := Rotated(Rotated(m));
    RotatedTwice(m, cols);
    RotatedTwice(h, cols);
    var f := Rotated(Rotated(h));
    forall j | 0 <= j < |m|
      ensures f[j] == m[j]
    {
      forall i | 0 <= i < cols
        ensures f[j][i] == m[j][i]
      {
        assert f[j][i] == h[|m| - 1 - j][cols - 1 - i];
      }
    }
  }
}
