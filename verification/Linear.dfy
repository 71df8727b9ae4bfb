/** Vectors and matrices over the reals: a matrix is a sequence of rows. */
module Linear {
  type Vector = seq<real>
  type Matrix = seq<Vector>

  predicate IsMatrix(w: Matrix, rows: nat, columns: nat) {
    |w| == rows && forall i :: 0 <= i < rows ==> |w[i]| == columns
  }

  function Zeros(n: nat): Vector {
    seq(n, i => 0.0)
  }

  function Plus(a: Vector, b: Vector): (r: Vector)
    requires |a| == |b|
    ensures |r| == |a|
  {
    seq(|a|, i requires 0 <= i < |a| => a[i] + b[i])
  }

  function Times(a: Vector, b: Vector): (r: Vector)
    requires |a| == |b|
    ensures |r| == |a|
  {
    seq(|a|, i requires 0 <= i < |a| => a[i] * b[i])
  }

  function Map(f: real -> real, a: Vector): (r: Vector)
    ensures |r| == |a|
  {
    seq(|a|, i requires 0 <= i < |a| => f(a[i]))
  }

  function Sum(a: Vector): real {
    if a == [] then 0.0 else Sum(a[..|a| - 1]) + a[|a| - 1]
  }

  function Inner(a: Vector, b: Vector): real
    requires |a| == |b|
  {
    Sum(Times(a, b))
  }

  function Apply(w: Matrix, x: Vector): (r: Vector)
    requires IsMatrix(w, |w|, |x|)
    ensures |r| == |w|
  {
    seq(|w|, i requires 0 <= i < |w| => Inner(w[i], x))
  }

  lemma {:induction false} SumAppend(a: Vector, b: Vector)
    ensures Sum(a + b) == Sum(a) + Sum(b)
  {
    if b == [] {
      assert a + b == a;
    } else {
      SumAppend(a, b[..|b| - 1]);
      assert (a + b)[..|a + b| - 1] == a + b[..|b| - 1];
    }
  }

  lemma {:induction false} SumPlus(a: Vector, b: Vector)
    requires |a| == |b|
    ensures Sum(Plus(a, b)) == Sum(a) + Sum(b)
  {
    if a != [] {
      var n := |a| - 1;
      SumPlus(a[..n], b[..n]);
      assert Plus(a, b)[..n] == Plus(a[..n], b[..n]);
    }
  }

  lemma Distribute(a: real, x: real, s: real, t: real)
    ensures a * (x * s + t) == a * s * x + a * t
  {
  }

  /** <a, x*s + t> == <a*s, x> + <a, t> */
  lemma InnerAffine(a: Vector, x: Vector, s: Vector, t: Vector)
    requires |a| == |x| == |s| == |t|
    ensures Inner(a, Plus(Times(x, s), t)) == Inner(Times(a, s), x) + Inner(a, t)
  {
    var u, v := Times(Times(a, s), x), Times(a, t);
    forall i | 0 <= i < |a| ensures Times(a, Plus(Times(x, s), t))[i] == Plus(u, v)[i] {
      Distribute(a[i], x[i], s[i], t[i]);
    }
    assert Times(a, Plus(Times(x, s), t)) == Plus(u, v);
    SumPlus(u, v);
  }

  lemma InnerConcat(a: Vector, b: Vector, x: Vector, y: Vector)
    requires |a| == |x| && |b| == |y|
    ensures Inner(a + b, x + y) == Inner(a, x) + Inner(b, y)
  {
    var u := Times(a, x) + Times(b, y);
    forall i | 0 <= i < |a + b| ensures Times(a + b, x + y)[i] == u[i] {
      assert (a + b)[i] == (if i < |a| then a[i] else b[i - |a|]) && (x + y)[i] == if i < |a| then x[i] else y[i - |a|];
    }
    assert Times(a + b, x + y) == u;
    SumAppend(Times(a, x), Times(b, y));
  }

  // ----- What the operations are -----

  /** c in place j, zero elsewhere. */
  function Unit(n: nat, j: nat, c: real): (r: Vector)
    ensures |r| == n
  {
    seq(n, i => if i == j then c else 0.0)
  }

  lemma {:induction false} SumOfNone(a: Vector)
    requires forall i :: 0 <= i < |a| ==> a[i] == 0.0
    ensures Sum(a) == 0.0
  {
    if a != [] {
      SumOfNone(a[..|a| - 1]);
    }
  }

  lemma {:induction false} SumOfOne(a: Vector, j: nat)
    requires j < |a| && forall i :: 0 <= i < |a| && i != j ==> a[i] == 0.0
    ensures Sum(a) == a[j]
  {
    var n := |a| - 1;
    if j < n {
      SumOfOne(a[..n], j);
    } else {
      SumOfNone(a[..n]);
    }
  }

  /** A matrix maps c in place j to c times its column j. */
  lemma ApplyToUnit(w: Matrix, columns: nat, i: nat, j: nat, c: real)
    requires IsMatrix(w, |w|, columns) && i < |w| && j < columns
    ensures Apply(w, Unit(columns, j, c))[i] == w[i][j] * c
  {
    SumOfOne(Times(w[i], Unit(columns, j, c)), j);
  }

  /** And it is additive. Both facts together leave no other map. */
  lemma ApplyAdds(w: Matrix, x: Vector, y: Vector)
    requires |x| == |y| && IsMatrix(w, |w|, |x|)
    ensures Apply(w, Plus(x, y)) == Plus(Apply(w, x), Apply(w, y))
  {
    forall i | 0 <= i < |w| ensures Apply(w, Plus(x, y))[i] == Plus(Apply(w, x), Apply(w, y))[i] {
      InnerAdds(w[i], x, y);
    }
  }

  lemma InnerAdds(a: Vector, x: Vector, y: Vector)
    requires |a| == |x| == |y|
    ensures Inner(a, Plus(x, y)) == Inner(a, x) + Inner(a, y)
  {
    var u, v := Times(a, x), Times(a, y);
    forall j | 0 <= j < |a| ensures Times(a, Plus(x, y))[j] == Plus(u, v)[j] {
      assert a[j] * (x[j] + y[j]) == a[j] * x[j] + a[j] * y[j];
    }
    assert Times(a, Plus(x, y)) == Plus(u, v);
    SumPlus(u, v);
  }
}
