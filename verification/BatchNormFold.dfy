/** Folding a batch norm forward into the linear map that consumes it. The square root
    is any function that is positive on positive numbers. */
module BatchNormFold {
  import opened Options
  import opened Linear

  datatype BatchNorm = BatchNorm(weight: Vector, bias: Vector, mean: Vector, variance: Vector, eps: real)

  predicate IsBatchNorm(bn: BatchNorm, n: nat) {
    && |bn.weight| == |bn.bias| == |bn.mean| == |bn.variance| == n
    && forall i :: 0 <= i < n ==> bn.variance[i] + bn.eps > 0.0
  }

  ghost predicate IsRoot(root: real -> real) {
    forall x :: x > 0.0 ==> root(x) > 0.0 && root(x) * root(x) == x
  }

  /** What the layer computes in evaluation mode. */
  function Normalize(root: real -> real, bn: BatchNorm, x: Vector): (r: Vector)
    requires IsRoot(root) && IsBatchNorm(bn, |x|)
    ensures |r| == |x|
  {
    seq(|x|, i requires 0 <= i < |x| =>
      (x[i] - bn.mean[i]) / root(bn.variance[i] + bn.eps) * bn.weight[i] + bn.bias[i])
  }

  /** What batch norm is: the distance from the mean, in units of the standard deviation,
      times the weight, from the bias on. */
  lemma NormalizeMeans(root: real -> real, bn: BatchNorm, x: Vector, i: nat)
    requires IsRoot(root) && IsBatchNorm(bn, |x|) && i < |x|
    ensures (Normalize(root, bn, x)[i] - bn.bias[i]) * root(bn.variance[i] + bn.eps) ==
            (x[i] - bn.mean[i]) * bn.weight[i]
  {
    QuotientBack(x[i] - bn.mean[i], root(bn.variance[i] + bn.eps), bn.weight[i]);
  }

  lemma QuotientBack(d: real, r: real, w: real)
    requires r > 0.0
    ensures d / r * w * r == d * w
  {
    assert d / r * w * r == d / r * r * w;
  }

  function Scale(root: real -> real, bn: BatchNorm, n: nat): (r: Vector)
    requires IsRoot(root) && IsBatchNorm(bn, n)
    ensures |r| == n
  {
    seq(n, i requires 0 <= i < n => bn.weight[i] / root(bn.variance[i] + bn.eps))
  }

  function Shift(root: real -> real, bn: BatchNorm, n: nat): (r: Vector)
    requires IsRoot(root) && IsBatchNorm(bn, n)
    ensures |r| == n
  {
    seq(n, i requires 0 <= i < n => bn.bias[i] - bn.mean[i] * Scale(root, bn, n)[i])
  }

  lemma Rescale(x: real, m: real, r: real, w: real, b: real)
    requires r > 0.0
    ensures (x - m) / r * w + b == x * (w / r) + (b - m * (w / r))
  {
    assert (x - m) / r * w == (x - m) * (w / r);
  }

  /** Batch norm is y = x * scale + shift. */
  lemma NormalizeIsAffine(root: real -> real, bn: BatchNorm, x: Vector)
    requires IsRoot(root) && IsBatchNorm(bn, |x|)
    ensures Normalize(root, bn, x) == Plus(Times(x, Scale(root, bn, |x|)), Shift(root, bn, |x|))
  {
    forall i | 0 <= i < |x|
      ensures Normalize(root, bn, x)[i] == Plus(Times(x, Scale(root, bn, |x|)), Shift(root, bn, |x|))[i]
    {
      Rescale(x[i], bn.mean[i], root(bn.variance[i] + bn.eps), bn.weight[i], bn.bias[i]);
    }
  }

  datatype LinearMap = LinearMap(weight: Matrix, bias: Vector)

  predicate IsLinearMap(f: LinearMap, inputs: nat) {
    IsMatrix(f.weight, |f.bias|, inputs)
  }

  function Linearly(f: LinearMap, x: Vector): (r: Vector)
    requires IsLinearMap(f, |x|)
    ensures |r| == |f.bias|
  {
    Plus(Apply(f.weight, x), f.bias)
  }

  /** fold_bn_into_linear: W * s[None, :] and W @ t + b. */
  function Fold(root: real -> real, bn: BatchNorm, f: LinearMap, n: nat): (r: LinearMap)
    requires IsRoot(root) && IsBatchNorm(bn, n) && IsLinearMap(f, n)
    ensures IsLinearMap(r, n) && |r.bias| == |f.bias|
  {
    LinearMap(
      seq(|f.weight|, i requires 0 <= i < |f.weight| => Times(f.weight[i], Scale(root, bn, n))),
      Plus(Apply(f.weight, Shift(root, bn, n)), f.bias))
  }

  /** Folding preserves meaning: one linear map does the work of both. */
  lemma FoldPreserves(root: real -> real, bn: BatchNorm, f: LinearMap, x: Vector)
    requires IsRoot(root) && IsBatchNorm(bn, |x|) && IsLinearMap(f, |x|)
    ensures Linearly(Fold(root, bn, f, |x|), x) == Linearly(f, Normalize(root, bn, x))
  {
    var s, t := Scale(root, bn, |x|), Shift(root, bn, |x|);
    NormalizeIsAffine(root, bn, x);
    forall i | 0 <= i < |f.bias|
      ensures Linearly(Fold(root, bn, f, |x|), x)[i] == Linearly(f, Normalize(root, bn, x))[i]
    {
      InnerAffine(f.weight[i], x, s, t);
    }
  }

  // ----- Chains -----

  /** An activation that stays in the graph, a batch norm and the linear map after it. */
  datatype Stage = Stage(activation: real -> real, bn: BatchNorm, linear: LinearMap)

  /** How wide the vector is that enters stage i. */
  function Width(stages: seq<Stage>, n: nat, i: nat): nat
    requires i <= |stages|
  {
    if i == 0 then n else |stages[i - 1].linear.bias|
  }

  predicate IsChain(stages: seq<Stage>, n: nat) {
    forall i :: 0 <= i < |stages| ==>
      IsBatchNorm(stages[i].bn, Width(stages, n, i)) && IsLinearMap(stages[i].linear, Width(stages, n, i))
  }

  function Original(root: real -> real, stages: seq<Stage>, x: Vector): (y: Vector)
    requires IsRoot(root) && IsChain(stages, |x|)
    ensures |y| == Width(stages, |x|, |stages|)
  {
    if stages == [] then x
    else
      var last := stages[|stages| - 1];
      Linearly(last.linear, Normalize(root, last.bn, Map(last.activation, Original(root, stages[..|stages| - 1], x))))
  }

  lemma CancelRight(a: real, b: real, r: real)
    requires r > 0.0 && a * r == b * r
    ensures a == b
  {
    assert a == a * r / r && b == b * r / r;
  }

  lemma PlaceIsNormalized(root: real -> real, bn: BatchNorm, m: Vector, j: nat, v: real)
    requires IsRoot(root) && IsBatchNorm(bn, |m|) && j < |m|
    requires Deviation(root, bn, j, v) == (m[j] - bn.mean[j]) * bn.weight[j]
    ensures v == Normalize(root, bn, m)[j]
  {
    var r := root(bn.variance[j] + bn.eps);
    NormalizeMeans(root, bn, m, j);
    CancelRight(v - bn.bias[j], Normalize(root, bn, m)[j] - bn.bias[j], r);
  }

  // How far v is from the bias, in standard deviations.
  function Deviation(root: real -> real, bn: BatchNorm, j: nat, v: real): real
    requires IsRoot(root) && j < |bn.variance| && j < |bn.bias|
  {
    (v - bn.bias[j]) * root(bn.variance[j] + bn.eps)
  }

  /** What z has to be to stand for the activated and normalized y. */
  ghost predicate Normalizes(root: real -> real, stage: Stage, y: Vector, z: Vector) {
    && IsRoot(root) && IsBatchNorm(stage.bn, |y|) && |z| == |y|
    && forall j :: 0 <= j < |y| ==>
         Deviation(root, stage.bn, j, z[j]) == (stage.activation(y[j]) - stage.bn.mean[j]) * stage.bn.weight[j]
  }

  lemma NormalizesIsNormalized(root: real -> real, stage: Stage, y: Vector, z: Vector)
    requires Normalizes(root, stage, y, z)
    ensures z == Normalize(root, stage.bn, Map(stage.activation, y))
  {
    forall j | 0 <= j < |y| ensures z[j] == Normalize(root, stage.bn, Map(stage.activation, y))[j] {
      PlaceIsNormalized(root, stage.bn, Map(stage.activation, y), j, z[j]);
    }
  }

  /** What the last stage of a chain computes from what the stages before it gave. */
  lemma LastStageComputes(root: real -> real, stages: seq<Stage>, x: Vector, z: Vector, i: nat)
    requires IsRoot(root) && IsChain(stages, |x|) && stages != [] && IsChain(stages[..|stages| - 1], |x|)
    requires Normalizes(root, stages[|stages| - 1], Original(root, stages[..|stages| - 1], x), z)
    requires i < |stages[|stages| - 1].linear.bias|
    ensures var f := stages[|stages| - 1].linear;
            IsLinearMap(f, |z|) && Original(root, stages, x)[i] == Inner(f.weight[i], z) + f.bias[i]
  {
    NormalizesIsNormalized(root, stages[|stages| - 1], Original(root, stages[..|stages| - 1], x), z);
  }

  datatype Folded = Folded(activation: real -> real, linear: LinearMap)

  ghost predicate FoldsTo(root: real -> real, stages: seq<Stage>, folded: seq<Folded>, n: nat)
    requires IsRoot(root) && IsChain(stages, n)
  {
    && |folded| == |stages|
    && forall i :: 0 <= i < |stages| ==>
         folded[i] == Folded(stages[i].activation, Fold(root, stages[i].bn, stages[i].linear, Width(stages, n, i)))
  }

  /** The graph that runs the folded maps; it has no batch norm left. */
  function Runtime(folded: seq<Folded>, x: Vector): Option<Vector> {
    if folded == [] then Some(x)
    else
      match Runtime(folded[..|folded| - 1], x)
      case None => None
      case Some(y) =>
        var last := folded[|folded| - 1];
        if IsLinearMap(last.linear, |y|) then Some(Linearly(last.linear, Map(last.activation, y))) else None
  }

  lemma ChainFront(root: real -> real, stages: seq<Stage>, folded: seq<Folded>, n: nat)
    requires IsRoot(root) && IsChain(stages, n) && FoldsTo(root, stages, folded, n) && stages != []
    ensures IsChain(stages[..|stages| - 1], n) && FoldsTo(root, stages[..|stages| - 1], folded[..|folded| - 1], n)
  {
    var k := |stages| - 1;
    assert forall i :: 0 <= i < k ==> stages[..k][i] == stages[i] && Width(stages[..k], n, i) == Width(stages, n, i);
  }

  lemma StagePreserved(root: real -> real, stage: Stage, y: Vector)
    requires IsRoot(root) && IsBatchNorm(stage.bn, |y|) && IsLinearMap(stage.linear, |y|)
    ensures Linearly(Fold(root, stage.bn, stage.linear, |y|), Map(stage.activation, y)) ==
            Linearly(stage.linear, Normalize(root, stage.bn, Map(stage.activation, y)))
  {
    FoldPreserves(root, stage.bn, stage.linear, Map(stage.activation, y));
  }

  /** A chain of any length and any widths fits together and computes the same after
      every batch norm in it has been folded forward. */
  lemma {:induction false} ChainPreserved(root: real -> real, stages: seq<Stage>, folded: seq<Folded>, x: Vector)
    requires IsRoot(root) && IsChain(stages, |x|) && FoldsTo(root, stages, folded, |x|)
    ensures Runtime(folded, x) == Some(Original(root, stages, x))
  {
    if stages != [] {
      var k := |stages| - 1;
      ChainFront(root, stages, folded, |x|);
      ChainPreserved(root, stages[..k], folded[..k], x);
      StagePreserved(root, stages[k], Original(root, stages[..k], x));
    }
  }

  /** The converter's loop over the batch norms that fold forward. */
  method FoldAll(root: real -> real, stages: seq<Stage>, n: nat) returns (folded: seq<Folded>)
    requires IsRoot(root) && IsChain(stages, n)
    ensures FoldsTo(root, stages, folded, n)
    ensures forall x :: |x| == n ==> Runtime(folded, x) == Some(Original(root, stages, x))
  {
    folded := [];
    for k := 0 to |stages|
      invariant |folded| == k
      invariant forall i :: 0 <= i < k ==>
        folded[i] == Folded(stages[i].activation, Fold(root, stages[i].bn, stages[i].linear, Width(stages, n, i)))
    {
      var linear := Fold(root, stages[k].bn, stages[k].linear, Width(stages, n, k));
      folded := folded + [Folded(stages[k].activation, linear)];
    }
    forall x | |x| == n ensures Runtime(folded, x) == Some(Original(root, stages, x)) {
      ChainPreserved(root, stages, folded, x);
    }
  }
}
