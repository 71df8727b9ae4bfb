/** The triangular mel filterbank of the LASR front end: its rows are a partition of
    unity between the first and the last filter centre. The logarithm is any strictly
    increasing function. */
module MelFilterbank {
  import opened Linear

  ghost predicate IsLog(log: real -> real) {
    forall x, y :: 0.0 < x < y ==> log(x) < log(y)
  }

  function Mel(log: real -> real, hertz: real): real {
    1127.0 * log(1.0 + hertz / 700.0)
  }

  // ----- Edges -----

  /** linspace(from, to, bands + 2) */
  function Edge(from: real, to: real, bands: nat, i: nat): real {
    from + i as real * ((to - from) / (bands + 1) as real)
  }

  function Edges(from: real, to: real, bands: nat): (e: seq<real>)
    ensures |e| == bands + 2
  {
    seq(bands + 2, i requires 0 <= i < bands + 2 => Edge(from, to, bands, i))
  }

  predicate Increasing(e: seq<real>) {
    forall i, j :: 0 <= i < j < |e| ==> e[i] < e[j]
  }

  lemma StepsAdd(from: real, step: real, i: nat, j: nat)
    requires step > 0.0 && i < j
    ensures from + i as real * step < from + j as real * step
  {
  }

  lemma EdgesIncrease(from: real, to: real, bands: nat)
    requires from < to
    ensures Increasing(Edges(from, to, bands))
  {
    var step := (to - from) / (bands + 1) as real;
    forall i, j | 0 <= i < j < bands + 2 ensures Edges(from, to, bands)[i] < Edges(from, to, bands)[j] {
      StepsAdd(from, step, i, j);
    }
  }

  lemma MelIncreases(log: real -> real, f: real, g: real)
    requires IsLog(log) && -700.0 < f < g
    ensures Mel(log, f) < Mel(log, g)
  {
    assert 0.0 < 1.0 + f / 700.0 < 1.0 + g / 700.0;
  }

  // ----- Filters -----

  function Min(a: real, b: real): real {
    if a <= b then a else b
  }

  function Max(a: real, b: real): real {
    if a >= b then a else b
  }

  /** Filter j at mel x: up from edge j to its centre j + 1, down to edge j + 2. */
  function Weight(e: seq<real>, j: nat, x: real): real
    requires Increasing(e) && j + 2 < |e|
  {
    Max(0.0, Min((x - e[j]) / (e[j + 1] - e[j]), (e[j + 2] - x) / (e[j + 2] - e[j + 1])))
  }

  function Row(e: seq<real>, x: real): (r: seq<real>)
    requires Increasing(e) && |e| >= 2
    ensures |r| == |e| - 2
  {
    seq(|e| - 2, j requires 0 <= j < |e| - 2 => Weight(e, j, x))
  }

  lemma PositiveProduct(a: real, b: real)
    requires a > 0.0 && b > 0.0
    ensures a * b > 0.0
  {
  }

  lemma QuotientCompares(q: real, n: real, d: real)
    requires d > 0.0 && q * d == n
    ensures (q < 1.0 <==> n < d) && (q == 1.0 <==> n == d)
    ensures (q > 0.0 <==> n > 0.0) && (q == 0.0 <==> n == 0.0)
  {
    if q < 1.0 {
      PositiveProduct(1.0 - q, d);
      assert (1.0 - q) * d == d - n;
    } else if q > 1.0 {
      PositiveProduct(q - 1.0, d);
      assert (q - 1.0) * d == n - d;
    }
    if q > 0.0 {
      PositiveProduct(q, d);
    } else if q < 0.0 {
      PositiveProduct(-q, d);
      assert -q * d == -n;
    }
  }

  lemma QuotientTimes(n: real, d: real)
    requires d > 0.0
    ensures n / d * d == n
  {
  }

  /** A slope is 0 at its foot and 1 at its top. */
  lemma Slope(x: real, foot: real, top: real)
    requires foot < top
    ensures var s := (x - foot) / (top - foot);
            (s > 0.0 <==> x > foot) && (s < 1.0 <==> x < top) && (s == 0.0 <==> x == foot)
    ensures (x - foot) / (top - foot) + (top - x) / (top - foot) == 1.0
  {
    var d := top - foot;
    var p, q := (x - foot) / d, (top - x) / d;
    QuotientTimes(x - foot, d);
    QuotientTimes(top - x, d);
    QuotientCompares(p, x - foot, d);
    assert (p + q) * d == p * d + q * d;
    QuotientCompares(p + q, d, d);
  }

  lemma WeightShape(e: seq<real>, j: nat, x: real)
    requires Increasing(e) && j + 2 < |e|
    ensures 0.0 <= Weight(e, j, x) <= 1.0
    ensures Weight(e, j, x) > 0.0 <==> e[j] < x < e[j + 2]
    ensures e[j] <= x <= e[j + 1] ==> Weight(e, j, x) == (x - e[j]) / (e[j + 1] - e[j])
    ensures e[j + 1] <= x <= e[j + 2] ==> Weight(e, j, x) == (e[j + 2] - x) / (e[j + 2] - e[j + 1])
  {
    Slope(x, e[j], e[j + 1]);
    Slope(x, e[j + 1], e[j + 2]);
  }

  /** Only the filters on either side of the interval that holds x see it. */
  lemma OnlyNeighbours(e: seq<real>, k: nat, x: real, j: nat)
    requires Increasing(e) && k + 1 < |e| && e[k] <= x < e[k + 1] && j + 2 < |e|
    ensures Weight(e, j, x) > 0.0 ==> j == k || j + 1 == k
  {
    WeightShape(e, j, x);
  }

  lemma {:induction false} ZeroSum(r: seq<real>)
    requires forall j :: 0 <= j < |r| ==> r[j] == 0.0
    ensures Sum(r) == 0.0
  {
    if r != [] {
      ZeroSum(r[..|r| - 1]);
    }
  }

  lemma SumOfShort(r: seq<real>)
    requires |r| <= 2
    ensures Sum(r) == (if |r| > 0 then r[0] else 0.0) + (if |r| > 1 then r[1] else 0.0)
  {
    if |r| == 2 {
      assert Sum(r[..1]) == Sum(r[..1][..0]) + r[0];
    }
  }

  lemma SumSplit(r: seq<real>, a: nat)
    requires a <= |r|
    ensures Sum(r) == Sum(r[..a]) + Sum(r[a..])
  {
    assert r == r[..a] + r[a..];
    SumAppend(r[..a], r[a..]);
  }

  lemma SumOfMiddle(r: seq<real>, a: nat, b: nat)
    requires a <= b <= |r| && (forall j :: 0 <= j < a || b <= j < |r| ==> r[j] == 0.0)
    ensures Sum(r) == Sum(r[a..b])
  {
    SumSplit(r, b);
    SumSplit(r[..b], a);
    ZeroSum(r[b..]);
    ZeroSum(r[..b][..a]);
    assert r[..b][a..] == r[a..b];
  }

  /** A sum with at most two adjacent terms that are not zero. */
  lemma SumOfTwo(r: seq<real>, k: nat)
    requires forall j :: 0 <= j < |r| && j != k && j + 1 != k ==> r[j] == 0.0
    ensures Sum(r) == (if 0 < k <= |r| then r[k - 1] else 0.0) + (if k < |r| then r[k] else 0.0)
  {
    if k > |r| {
      ZeroSum(r);
    } else {
      var a, b := if k == 0 then 0 else k - 1, if k == |r| then k else k + 1;
      SumOfMiddle(r, a, b);
      SumOfShort(r[a..b]);
    }
  }

  lemma {:induction false} Locate(e: seq<real>, x: real, n: nat) returns (k: nat)
    requires 0 < n < |e| && e[0] <= x < e[n]
    ensures k < n && e[k] <= x < e[k + 1]
  {
    if e[n - 1] <= x {
      k := n - 1;
    } else {
      k := Locate(e, x, n - 1);
    }
  }

  /** What a front end relies on: weights between 0 and 1, at most two of them positive
      and those adjacent, and a total of at most 1 that is exactly 1 between the first
      and the last centre and nowhere else. */
  ghost predicate IsPartition(e: seq<real>, r: seq<real>, x: real) {
    && 3 <= |e| && |r| == |e| - 2
    && (forall j :: 0 <= j < |r| ==> 0.0 <= r[j] <= 1.0)
    && (forall i, j :: 0 <= i < j < |r| && r[i] != 0.0 && r[j] != 0.0 ==> j == i + 1)
    && Sum(r) <= 1.0
    && (Sum(r) == 1.0 <==> e[1] <= x <= e[|e| - 2])
  }

  lemma InsideIsPartition(e: seq<real>, x: real, k: nat)
    requires Increasing(e) && 3 <= |e| && k + 1 < |e| && e[k] <= x < e[k + 1]
    ensures IsPartition(e, Row(e, x), x)
  {
    var r := Row(e, x);
    forall j | 0 <= j < |r| ensures 0.0 <= r[j] <= 1.0 && (r[j] > 0.0 ==> j == k || j + 1 == k) {
      WeightShape(e, j, x);
      OnlyNeighbours(e, k, x, j);
    }
    SumOfTwo(r, k);
    Slope(x, e[k], e[k + 1]);
    if k < |r| {
      WeightShape(e, k, x);
    }
    if k > 0 {
      WeightShape(e, k - 1, x);
    }
  }

  lemma OutsideIsPartition(e: seq<real>, x: real)
    requires Increasing(e) && 3 <= |e| && !(e[0] <= x < e[|e| - 1])
    ensures IsPartition(e, Row(e, x), x)
  {
    var r := Row(e, x);
    forall j | 0 <= j < |r| ensures r[j] == 0.0 {
      WeightShape(e, j, x);
    }
    ZeroSum(r);
  }

  lemma RowIsPartition(e: seq<real>, x: real)
    requires Increasing(e) && 3 <= |e|
    ensures IsPartition(e, Row(e, x), x)
  {
    if e[0] <= x < e[|e| - 1] {
      var k := Locate(e, x, |e| - 1);
      InsideIsPartition(e, x, k);
    } else {
      OutsideIsPartition(e, x);
    }
  }

  // ----- The bank -----

  datatype Bank = Bank(bands: nat, bins: nat, sampleRate: real, lower: real, upper: real)

  /** The frequency of a spectrogram bin: linspace(0, nyquist, bins). */
  function Frequency(b: Bank, i: nat): real
    requires i < b.bins && b.bins > 1
  {
    i as real * (b.sampleRate / 2.0 / (b.bins - 1) as real)
  }

  function BankEdges(log: real -> real, b: Bank): seq<real> {
    Edges(Mel(log, b.lower), Mel(log, b.upper), b.bands)
  }

  ghost predicate IsBank(log: real -> real, b: Bank) {
    IsLog(log) && b.bands > 0 && -700.0 < b.lower < b.upper
  }

  lemma BankEdgesIncrease(log: real -> real, b: Bank)
    requires IsBank(log, b)
    ensures Increasing(BankEdges(log, b))
  {
    MelIncreases(log, b.lower, b.upper);
    EdgesIncrease(Mel(log, b.lower), Mel(log, b.upper), b.bands);
  }

  /** Every bin but the first is filtered; the first is padded back as a zero row. */
  function Filterbank(log: real -> real, b: Bank): (rows: seq<seq<real>>)
    requires IsBank(log, b)
  {
    BankEdgesIncrease(log, b);
    [Zeros(b.bands)] +
    seq(if b.bins <= 1 then 0 else b.bins - 1,
        i requires 0 <= i < b.bins - 1 && b.bins > 1 => Row(BankEdges(log, b), Mel(log, Frequency(b, i + 1))))
  }

  lemma FilterbankRow(log: real -> real, b: Bank, i: nat)
    requires IsBank(log, b) && 0 < i < |Filterbank(log, b)|
    ensures i < b.bins && Increasing(BankEdges(log, b))
    ensures Filterbank(log, b)[i] == Row(BankEdges(log, b), Mel(log, Frequency(b, i)))
  {
    BankEdgesIncrease(log, b);
  }

  /** For any number of bands and bins, every row of the bank but the padded zero row
      of the first bin is a partition. */
  lemma FilterbankIsPartition(log: real -> real, b: Bank, i: nat)
    requires IsBank(log, b) && i < |Filterbank(log, b)|
    ensures var r := Filterbank(log, b)[i];
            if i == 0 then r == Zeros(b.bands)
            else i < b.bins && IsPartition(BankEdges(log, b), r, Mel(log, Frequency(b, i)))
  {
    if i > 0 {
      FilterbankRow(log, b, i);
      RowIsPartition(BankEdges(log, b), Mel(log, Frequency(b, i)));
    }
  }

  // ----- Where the filters are -----

  /** Evenly spaced from one end to the other, both included. */
  predicate IsEven(e: seq<real>, from: real, to: real, step: real) {
    |e| >= 2 && e[0] == from && e[|e| - 1] == to && forall i :: 0 <= i < |e| - 1 ==> e[i + 1] - e[i] == step
  }

  lemma StepNext(from: real, step: real, i: nat)
    ensures from + (i + 1) as real * step == from + i as real * step + step
  {
    assert (i + 1) as real == i as real + 1.0;
  }

  lemma StepsReach(from: real, to: real, n: nat)
    requires n > 0
    ensures from + n as real * ((to - from) / n as real) == to
  {
    QuotientTimes(to - from, n as real);
  }

  lemma EdgesAreEven(from: real, to: real, bands: nat)
    ensures IsEven(Edges(from, to, bands), from, to, (to - from) / (bands + 1) as real)
  {
    var e, step := Edges(from, to, bands), (to - from) / (bands + 1) as real;
    forall i | 0 <= i < |e| - 1 ensures e[i + 1] - e[i] == step {
      StepNext(from, step, i);
    }
    StepsReach(from, to, bands + 1);
  }

  lemma BinsAreEven(b: Bank)
    requires b.bins > 1
    ensures IsEven(seq(b.bins, i requires 0 <= i < b.bins => Frequency(b, i)), 0.0, b.sampleRate / 2.0,
                   b.sampleRate / 2.0 / (b.bins - 1) as real)
  {
    var step := b.sampleRate / 2.0 / (b.bins - 1) as real;
    forall i | 0 <= i < b.bins - 1 ensures Frequency(b, i + 1) - Frequency(b, i) == step {
      StepNext(0.0, step, i);
    }
    QuotientTimes(b.sampleRate / 2.0, (b.bins - 1) as real);
  }

  lemma {:induction false} EvenAt(e: seq<real>, from: real, to: real, step: real, i: nat)
    requires IsEven(e, from, to, step) && i < |e|
    ensures e[i] == from + i as real * step
  {
    if i > 0 {
      EvenAt(e, from, to, step, i - 1);
      StepNext(from, step, i - 1);
      assert e[i - 1 + 1] - e[i - 1] == step;
    }
  }

  function Abs(x: real): real {
    if x < 0.0 then -x else x
  }

  /** Between even edges a filter is a hat of height 1 on its centre, one step wide on
      either side. */
  lemma WeightIsHat(e: seq<real>, j: nat, x: real, step: real)
    requires Increasing(e) && j + 2 < |e| && e[j + 1] - e[j] == step == e[j + 2] - e[j + 1]
    ensures step > 0.0 && Weight(e, j, x) == Max(0.0, 1.0 - Abs(x - e[j + 1]) / step)
  {
    Quotients(x - e[j + 1], step);
    assert x - e[j] == (x - e[j + 1]) + step && e[j + 2] - x == step - (x - e[j + 1]);
  }

  lemma QuotientIs(q: real, n: real, d: real)
    requires d > 0.0 && q * d == n
    ensures n / d == q
  {
    QuotientTimes(n, d);
    assert (n / d - q) * d == 0.0;
    QuotientCompares(n / d - q, 0.0, d);
  }

  lemma Quotients(d: real, step: real)
    requires step > 0.0
    ensures (d + step) / step == 1.0 + d / step && (step - d) / step == 1.0 - d / step
    ensures Abs(d) / step == Abs(d / step)
  {
    var q := d / step;
    QuotientTimes(d, step);
    QuotientIs(1.0 + q, d + step, step);
    QuotientIs(1.0 - q, step - d, step);
    QuotientIs(-q, -d, step);
    QuotientCompares(q, d, step);
  }

  lemma FilterIsHat(e: seq<real>, from: real, to: real, step: real, j: nat, x: real) returns (centre: real)
    requires Increasing(e) && IsEven(e, from, to, step) && j + 2 < |e|
    ensures step > 0.0 && centre == from + (j + 1) as real * step
    ensures Weight(e, j, x) == Max(0.0, 1.0 - Abs(x - centre) / step)
  {
    centre := e[j + 1];
    EvenAt(e, from, to, step, j + 1);
    NeighboursOf(e, from, to, step, j);
    WeightIsHat(e, j, x, step);
  }

  lemma NeighboursOf(e: seq<real>, from: real, to: real, step: real, j: nat)
    requires IsEven(e, from, to, step) && j + 2 < |e|
    ensures e[j + 1] - e[j] == step == e[j + 2] - e[j + 1]
  {
    assert e[j + 1 + 1] - e[j + 1] == step;
  }

  lemma EvenEnds(e: seq<real>, from: real, to: real, step: real)
    requires IsEven(e, from, to, step)
    ensures e[1] == from + step && e[|e| - 2] == to - step
  {
    assert e[0 + 1] - e[0] == step && e[|e| - 2 + 1] - e[|e| - 2] == step;
  }

  /** The mel distance between neighbouring filters. */
  function MelStep(log: real -> real, b: Bank): real {
    (1127.0 * log(1.0 + b.upper / 700.0) - 1127.0 * log(1.0 + b.lower / 700.0)) / (b.bands + 1) as real
  }

  /** Where a bin lies on the mel scale. */
  function BinMel(log: real -> real, b: Bank, i: nat): real
    requires b.bins > 1
  {
    1127.0 * log(1.0 + i as real * (b.sampleRate / 2.0 / (b.bins - 1) as real) / 700.0)
  }

  /** Every weight of the bank: filter j is a hat on the j + 1st of bands + 2 even mel
      steps from the lower to the upper frequency. */
  lemma FilterbankIsHats(log: real -> real, b: Bank, i: nat, j: nat) returns (x: real, centre: real, step: real)
    requires IsBank(log, b) && 0 < i < b.bins && j < b.bands
    ensures |Filterbank(log, b)| == b.bins && |Filterbank(log, b)[i]| == b.bands
    ensures x == BinMel(log, b, i) && step == MelStep(log, b) > 0.0
    ensures centre == 1127.0 * log(1.0 + b.lower / 700.0) + (j + 1) as real * step
    ensures Filterbank(log, b)[i][j] == Max(0.0, 1.0 - Abs(x - centre) / step)
  {
    var e;
    e, x, step := EvenBank(log, b, i);
    centre := FilterIsHat(e, Mel(log, b.lower), Mel(log, b.upper), step, j, x);
    assert Filterbank(log, b)[i][j] == Weight(e, j, x);
  }

  lemma EvenBank(log: real -> real, b: Bank, i: nat) returns (e: seq<real>, x: real, step: real)
    requires IsBank(log, b) && 0 < i < b.bins
    ensures e == BankEdges(log, b) && |e| == b.bands + 2 && Increasing(e)
    ensures x == BinMel(log, b, i) == Mel(log, Frequency(b, i)) && step == MelStep(log, b)
    ensures IsEven(e, Mel(log, b.lower), Mel(log, b.upper), step)
    ensures |Filterbank(log, b)| == b.bins && Filterbank(log, b)[i] == Row(e, x)
  {
    e, x, step := BankEdges(log, b), Mel(log, Frequency(b, i)), MelStep(log, b);
    FilterbankRow(log, b, i);
    EdgesAreEven(Mel(log, b.lower), Mel(log, b.upper), b.bands);
  }

  lemma MelComparesBack(log: real -> real, f: real, g: real)
    requires IsLog(log) && -700.0 < f && -700.0 < g
    ensures f < g <==> Mel(log, f) < Mel(log, g)
  {
    if f < g {
      MelIncreases(log, f, g);
    } else if g < f {
      MelIncreases(log, g, f);
    }
  }

  lemma SomeWeight(e: seq<real>, x: real)
    requires Increasing(e) && |e| >= 3
    ensures (exists j :: 0 <= j < |e| - 2 && Row(e, x)[j] > 0.0) <==> e[0] < x < e[|e| - 1]
  {
    forall j | 0 <= j < |e| - 2 ensures Row(e, x)[j] > 0.0 <==> e[j] < x < e[j + 2] {
      WeightShape(e, j, x);
    }
    if e[0] < x < e[|e| - 1] {
      var k := Locate(e, x, |e| - 1);
      var j := if k == 0 || (k < |e| - 2 && e[k] < x) then k else k - 1;
      assert Row(e, x)[j] > 0.0;
    }
  }

  lemma BinIsAudible(b: Bank, i: nat)
    requires b.bins > 1 && b.sampleRate > 0.0 && i < b.bins
    ensures Frequency(b, i) >= 0.0
  {
    var step := b.sampleRate / 2.0 / (b.bins - 1) as real;
    QuotientTimes(b.sampleRate / 2.0, (b.bins - 1) as real);
    QuotientCompares(step, b.sampleRate / 2.0, (b.bins - 1) as real);
    if i > 0 {
      PositiveProduct(i as real, step);
    }
  }

  /** What the bank covers: a bin past the first is heard by some filter exactly when it
      lies strictly between the two frequencies, and its weights add up to 1 exactly when
      it lies at least one mel step inside both. */
  lemma FilterbankCovers(log: real -> real, b: Bank, i: nat) returns (r: seq<real>, f: real, x: real, step: real)
    requires IsBank(log, b) && b.sampleRate > 0.0 && 0 < i < b.bins
    ensures |Filterbank(log, b)| == b.bins && r == Filterbank(log, b)[i] && |r| == b.bands
    ensures f == Frequency(b, i) && x == Mel(log, f) && step == MelStep(log, b)
    ensures (exists j :: 0 <= j < |r| && r[j] > 0.0) <==> b.lower < f < b.upper
    ensures Sum(r) == 1.0 <==> Mel(log, b.lower) + step <= x <= Mel(log, b.upper) - step
  {
    var e;
    e, x, step := EvenBank(log, b, i);
    f := AudibleBin(log, b, i, x);
    r := Row(e, x);
    BankRowCovers(log, b, e, r, f, x, step);
  }

  lemma AudibleBin(log: real -> real, b: Bank, i: nat, x: real) returns (f: real)
    requires i < b.bins && b.bins > 1 && b.sampleRate > 0.0 && x == Mel(log, Frequency(b, i))
    ensures f == Frequency(b, i) >= 0.0 && x == Mel(log, f)
  {
    f := Frequency(b, i);
    BinIsAudible(b, i);
  }

  lemma BankRowCovers(log: real -> real, b: Bank, e: seq<real>, r: seq<real>, f: real, x: real, step: real)
    requires IsBank(log, b) && Increasing(e) && |e| == b.bands + 2 && r == Row(e, x)
    requires IsEven(e, Mel(log, b.lower), Mel(log, b.upper), step) && f >= 0.0 && x == Mel(log, f)
    ensures |r| == b.bands && ((exists j :: 0 <= j < |r| && r[j] > 0.0) <==> b.lower < f < b.upper)
    ensures Sum(r) == 1.0 <==> Mel(log, b.lower) + step <= x <= Mel(log, b.upper) - step
  {
    EvenRowCovers(e, Mel(log, b.lower), Mel(log, b.upper), step, x);
    MelComparesBack(log, b.lower, f);
    MelComparesBack(log, f, b.upper);
  }

  lemma EvenRowCovers(e: seq<real>, low: real, high: real, step: real, x: real)
    requires Increasing(e) && |e| >= 3 && IsEven(e, low, high, step)
    ensures (exists j :: 0 <= j < |e| - 2 && Row(e, x)[j] > 0.0) <==> low < x < high
    ensures Sum(Row(e, x)) == 1.0 <==> low + step <= x <= high - step
  {
    SomeWeight(e, x);
    RowIsPartition(e, x);
    EvenEnds(e, low, high, step);
  }
}
