/** Weights cut by columns and weights stacked by rows: a 1x1 convolution over a
    concatenated input, and the fused key/value projection. */
module WeightLayout {
  import opened Linear

  // ----- Cutting columns -----

  function Share(columns: nat, parts: nat): nat
    requires parts > 0
  {
    columns / parts
  }

  lemma MulGrows(a: nat, b: nat, n: nat)
    requires a <= b
    ensures a * n <= b * n && b * n == a * n + (b - a) * n
  {
    assert b * n == (a + (b - a)) * n;
  }

  lemma ShareIsQuotient(columns: nat, parts: nat)
    requires parts > 0
    ensures parts * Share(columns, parts) + columns % parts == columns
  {
  }

  lemma ShareFits(columns: nat, parts: nat, k: nat)
    requires 0 < parts && k < parts
    ensures k * Share(columns, parts) <= (k + 1) * Share(columns, parts) <= parts * Share(columns, parts) <= columns
    ensures (k + 1) * Share(columns, parts) == k * Share(columns, parts) + Share(columns, parts)
  {
    ShareIsQuotient(columns, parts);
    MulGrows(k, k + 1, Share(columns, parts));
    MulGrows(k + 1, parts, Share(columns, parts));
  }

  function Columns(w: Matrix, lo: nat, hi: nat): (r: Matrix)
    requires lo <= hi && forall i :: 0 <= i < |w| ==> hi <= |w[i]|
    ensures IsMatrix(r, |w|, hi - lo)
  {
    seq(|w|, i requires 0 <= i < |w| => w[i][lo..hi])
  }

  /** The columns of member k of the concatenation. */
  function Part(w: Matrix, columns: nat, parts: nat, k: nat): (r: Matrix)
    requires IsMatrix(w, |w|, columns) && k < parts
    ensures IsMatrix(r, |w|, Share(columns, parts))
  {
    var n := Share(columns, parts);
    ShareFits(columns, parts, k);
    Columns(w, k * n, (k + 1) * n)
  }

  method SplitColumns(w: Matrix, columns: nat, parts: nat) returns (split: seq<Matrix>)
    requires IsMatrix(w, |w|, columns) && parts > 0
    ensures |split| == parts && forall k :: 0 <= k < parts ==> split[k] == Part(w, columns, parts, k)
  {
    split := [];
    for k := 0 to parts
      invariant |split| == k && forall j :: 0 <= j < k ==> split[j] == Part(w, columns, parts, j)
    {
      split := split + [Part(w, columns, parts, k)];
    }
  }

  predicate IsInput(xs: seq<Vector>, n: nat) {
    forall k :: 0 <= k < |xs| ==> |xs[k]| == n
  }

  function Flat(xs: seq<Vector>, n: nat): (r: Vector)
    requires IsInput(xs, n)
    ensures |r| == |xs| * n
  {
    if xs == [] then [] else
      assert |xs| * n == (|xs| - 1) * n + n;
      Flat(xs[..|xs| - 1], n) + xs[|xs| - 1]
  }

  /** What the graph adds up: every part applied to its own input. */
  function SumOfParts(w: Matrix, columns: nat, parts: nat, xs: seq<Vector>): (r: Vector)
    requires IsMatrix(w, |w|, columns) && |xs| <= parts && parts > 0 && IsInput(xs, Share(columns, parts))
    ensures |r| == |w|
  {
    if xs == [] then Zeros(|w|)
    else
      var k := |xs| - 1;
      Plus(SumOfParts(w, columns, parts, xs[..k]), Apply(Part(w, columns, parts, k), xs[k]))
  }

  lemma {:induction false} RowOfSum(w: Matrix, columns: nat, parts: nat, xs: seq<Vector>, i: nat)
    requires IsMatrix(w, |w|, columns) && |xs| <= parts && parts > 0 && IsInput(xs, Share(columns, parts)) && i < |w|
    ensures |xs| * Share(columns, parts) <= columns
    ensures SumOfParts(w, columns, parts, xs)[i] ==
            Inner(w[i][..|xs| * Share(columns, parts)], Flat(xs, Share(columns, parts)))
  {
    var n := Share(columns, parts);
    if xs == [] {
      assert 0 * n == 0;
    } else {
      var k := |xs| - 1;
      ShareFits(columns, parts, k);
      RowOfSum(w, columns, parts, xs[..k], i);
      InnerConcat(w[i][..k * n], w[i][k * n..(k + 1) * n], Flat(xs[..k], n), xs[k]);
      assert w[i][..(k + 1) * n] == w[i][..k * n] + w[i][k * n..(k + 1) * n];
    }
  }

  /** The parts together are the weight without its last columns % parts columns,
      applied to the concatenated input. */
  lemma SumOfPartsIsPrefix(w: Matrix, columns: nat, parts: nat, xs: seq<Vector>)
    requires IsMatrix(w, |w|, columns) && |xs| == parts > 0 && IsInput(xs, Share(columns, parts))
    ensures parts * Share(columns, parts) <= columns
    ensures SumOfParts(w, columns, parts, xs) ==
            Apply(Columns(w, 0, parts * Share(columns, parts)), Flat(xs, Share(columns, parts)))
  {
    ShareFits(columns, parts, 0);
    var n := Share(columns, parts);
    var whole := Apply(Columns(w, 0, parts * n), Flat(xs, n));
    forall i | 0 <= i < |w| ensures SumOfParts(w, columns, parts, xs)[i] == whole[i] {
      RowOfSum(w, columns, parts, xs, i);
      assert w[i][0..parts * n] == w[i][..parts * n];
    }
  }

  lemma AllColumns(w: Matrix, columns: nat, m: nat)
    requires IsMatrix(w, |w|, columns) && m == columns
    ensures Columns(w, 0, m) == w
  {
    forall i | 0 <= i < |w| ensures Columns(w, 0, m)[i] == w[i] {
      assert w[i][0..m] == w[i];
    }
  }

  lemma FlatIsWhole(columns: nat, parts: nat, xs: seq<Vector>)
    requires |xs| == parts > 0 && IsInput(xs, Share(columns, parts)) && columns % parts == 0
    ensures |Flat(xs, Share(columns, parts))| == columns == parts * Share(columns, parts)
  {
    ShareIsQuotient(columns, parts);
  }

  /** When the parts divide the columns, splitting preserves meaning. */
  lemma SplitPreserves(w: Matrix, columns: nat, parts: nat, xs: seq<Vector>)
    requires IsMatrix(w, |w|, columns) && |xs| == parts > 0 && IsInput(xs, Share(columns, parts))
    requires columns % parts == 0
    ensures var x := Flat(xs, Share(columns, parts));
            |x| == columns && SumOfParts(w, columns, parts, xs) == Apply(w, x)
  {
    FlatIsWhole(columns, parts, xs);
    AllColumns(w, columns, parts * Share(columns, parts));
    SumOfPartsIsPrefix(w, columns, parts, xs);
  }

  ghost predicate SameParts(v: Matrix, w: Matrix, columns: nat, parts: nat)
    requires IsMatrix(v, |v|, columns) && IsMatrix(w, |w|, columns)
  {
    forall k :: 0 <= k < parts ==> Part(v, columns, parts, k) == Part(w, columns, parts, k)
  }

  /** The parts determine the weight: nothing is lost. */
  ghost predicate Lossless(rows: nat, columns: nat, parts: nat) {
    forall v, w ::
      IsMatrix(v, rows, columns) && IsMatrix(w, rows, columns) && SameParts(v, w, columns, parts) ==> v == w
  }

  lemma PartOfColumn(columns: nat, parts: nat, j: nat) returns (k: nat, c: nat)
    requires parts > 0 && columns % parts == 0 && j < columns
    ensures k < parts && c < Share(columns, parts) && j == k * Share(columns, parts) + c
  {
    var n := Share(columns, parts);
    ShareIsQuotient(columns, parts);
    assert n > 0;
    k, c := j / n, j % n;
    if k >= parts {
      MulGrows(parts, k, n);
    }
  }

  lemma EntryFromPart(v: Matrix, w: Matrix, columns: nat, parts: nat, i: nat, j: nat)
    requires IsMatrix(v, |v|, columns) && IsMatrix(w, |v|, columns) && SameParts(v, w, columns, parts)
    requires parts > 0 && columns % parts == 0 && i < |v| && j < columns
    ensures v[i][j] == w[i][j]
  {
    var k, c := PartOfColumn(columns, parts, j);
    ShareFits(columns, parts, k);
    assert Part(v, columns, parts, k)[i][c] == v[i][j];
    assert Part(w, columns, parts, k)[i][c] == w[i][j];
  }

  function Constant(rows: nat, row: Vector): Matrix {
    seq(rows, i => row)
  }

  /** The floor division drops columns unless the number of parts divides them. */
  lemma LosslessIff(rows: nat, columns: nat, parts: nat)
    requires rows > 0 && parts > 0
    ensures Lossless(rows, columns, parts) <==> columns % parts == 0
  {
    if columns % parts == 0 {
      forall v, w | IsMatrix(v, rows, columns) && IsMatrix(w, rows, columns) && SameParts(v, w, columns, parts)
        ensures v == w
      {
        forall i | 0 <= i < rows ensures v[i] == w[i] {
          forall j | 0 <= j < columns ensures v[i][j] == w[i][j] {
            EntryFromPart(v, w, columns, parts, i, j);
          }
        }
      }
    } else {
      LastColumnIsDropped(rows, columns, parts);
    }
  }

  lemma LastColumnIsDropped(rows: nat, columns: nat, parts: nat)
    requires rows > 0 && parts > 0 && columns % parts != 0
    ensures !Lossless(rows, columns, parts)
  {
    var n := Share(columns, parts);
    assert parts * n < columns;
    var v, w := Constant(rows, Zeros(columns)), Constant(rows, Zeros(columns - 1) + [1.0]);
    forall k | 0 <= k < parts ensures Part(v, columns, parts, k) == Part(w, columns, parts, k) {
      ShareFits(columns, parts, k);
      assert Zeros(columns)[k * n..(k + 1) * n] == (Zeros(columns - 1) + [1.0])[k * n..(k + 1) * n];
    }
    assert v[0][columns - 1] != w[0][columns - 1];
  }

  // ----- Stacking rows -----

  datatype Fused = Fused(weight: Matrix) | ShapeMismatch

  /** Keys first, values second; both must have the same shape. */
  function FuseKeyValue(k: Matrix, v: Matrix, kInputs: nat, vInputs: nat): Fused {
    if |k| != |v| || kInputs != vInputs then ShapeMismatch else Fused(k + v)
  }

  /** chunk(2): the first half is the larger one. */
  function Chunk<T>(y: seq<T>): (seq<T>, seq<T>) {
    var half := (|y| + 1) / 2;
    (y[..half], y[half..])
  }

  lemma ChunkRecovers<T(!new)>(a: seq<T>, b: seq<T>)
    ensures Chunk(a + b) == (a, b) <==> |a| == |b| || |a| == |b| + 1
  {
    var half := (|a + b| + 1) / 2;
    if half == |a| {
      assert (a + b)[..half] == a && (a + b)[half..] == b;
    } else {
      assert |(a + b)[..half]| != |a|;
    }
  }

  /** The fused projection computes keys and values in one product, and its two row
      blocks are the two weights. */
  lemma FusedProjects(k: Matrix, v: Matrix, inputs: nat, x: Vector)
    requires |k| == |v| && IsMatrix(k, |k|, inputs) && IsMatrix(v, |v|, inputs) && |x| == inputs
    ensures var f := FuseKeyValue(k, v, inputs, inputs);
            f.Fused? && IsMatrix(f.weight, |f.weight|, inputs) && Chunk(f.weight) == (k, v) &&
            Chunk(Apply(f.weight, x)) == (Apply(k, x), Apply(v, x))
  {
    ChunkRecovers(k, v);
    assert Apply(k + v, x) == Apply(k, x) + Apply(v, x);
    ChunkRecovers(Apply(k, x), Apply(v, x));
  }

  /** Fusing is refused exactly when the two shapes differ. */
  lemma FusedIff(k: Matrix, v: Matrix, kInputs: nat, vInputs: nat)
    ensures FuseKeyValue(k, v, kInputs, vInputs).Fused? <==> |k| == |v| && kInputs == vInputs
  {
  }
}
