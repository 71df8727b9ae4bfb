/** The predictor's LSTM with one bias per layer against the two-bias original. Gate
    functions are arbitrary. */
module Lstm {
  import opened Linear

  datatype Gates = Gates(sigmoid: real -> real, tanh: real -> real)

  /** PyTorch layout: input, forget, cell and output gate blocks of `hidden` rows. */
  datatype Layer = Layer(hidden: nat, ih: Matrix, hh: Matrix, biasIh: Vector, biasHh: Vector)

  predicate IsLayer(l: Layer, inputs: nat) {
    && IsMatrix(l.ih, 4 * l.hidden, inputs) && IsMatrix(l.hh, 4 * l.hidden, l.hidden)
    && |l.biasIh| == |l.biasHh| == 4 * l.hidden
  }

  datatype Cell = Cell(h: Vector, c: Vector)

  predicate IsCell(s: Cell, hidden: nat) {
    |s.h| == |s.c| == hidden
  }

  /** One step from the summed gate inputs. */
  function Update(g: Gates, hidden: nat, pre: Vector, c: Vector): (s: Cell)
    requires |pre| == 4 * hidden && |c| == hidden
    ensures IsCell(s, hidden)
  {
    var next := seq(hidden, i requires 0 <= i < hidden =>
      g.sigmoid(pre[hidden + i]) * c[i] + g.sigmoid(pre[i]) * g.tanh(pre[2 * hidden + i]));
    Cell(seq(hidden, i requires 0 <= i < hidden => g.sigmoid(pre[3 * hidden + i]) * g.tanh(next[i])), next)
  }

  /** What each block of gate inputs is for, unit by unit: the first lets the third in, the
      second keeps the old cell, the fourth lets the cell out. */
  lemma BlocksAreGates(g: Gates, hidden: nat, pre: Vector, c: Vector, i: nat)
    requires |pre| == 4 * hidden && |c| == hidden && i < hidden
    ensures var s, admit, keep, offer, expose :=
              Update(g, hidden, pre, c), pre[i], pre[hidden + i], pre[2 * hidden + i], pre[3 * hidden + i];
            (g.sigmoid(admit) == 0.0 && g.sigmoid(keep) == 1.0 ==> s.c[i] == c[i]) &&
            (g.sigmoid(admit) == 1.0 && g.sigmoid(keep) == 0.0 ==> s.c[i] == g.tanh(offer)) &&
            (g.sigmoid(admit) == 1.0 && g.sigmoid(keep) == 1.0 ==> s.c[i] == c[i] + g.tanh(offer)) &&
            (g.sigmoid(expose) == 0.0 ==> s.h[i] == 0.0) && (g.sigmoid(expose) == 1.0 ==> s.h[i] == g.tanh(s.c[i]))
  {
  }

  function TwoBiasStep(g: Gates, l: Layer, s: Cell, x: Vector): (t: Cell)
    requires IsLayer(l, |x|) && IsCell(s, l.hidden)
    ensures IsCell(t, l.hidden)
  {
    Update(g, l.hidden, Plus(Plus(Apply(l.ih, x), l.biasIh), Plus(Apply(l.hh, s.h), l.biasHh)), s.c)
  }

  /** What the converter ships for a layer: Wx, Wh and one bias. */
  datatype Collapsed = Collapsed(hidden: nat, wx: Matrix, wh: Matrix, bias: Vector)

  predicate IsCollapsed(l: Collapsed, inputs: nat) {
    IsMatrix(l.wx, 4 * l.hidden, inputs) && IsMatrix(l.wh, 4 * l.hidden, l.hidden) && |l.bias| == 4 * l.hidden
  }

  function Collapse(l: Layer, inputs: nat): (r: Collapsed)
    requires IsLayer(l, inputs)
    ensures IsCollapsed(r, inputs) && r.hidden == l.hidden
  {
    Collapsed(l.hidden, l.ih, l.hh, Plus(l.biasIh, l.biasHh))
  }

  function OneBiasStep(g: Gates, l: Collapsed, s: Cell, x: Vector): (t: Cell)
    requires IsCollapsed(l, |x|) && IsCell(s, l.hidden)
    ensures IsCell(t, l.hidden)
  {
    Update(g, l.hidden, Plus(Plus(Apply(l.wx, x), Apply(l.wh, s.h)), l.bias), s.c)
  }

  lemma StepPreserved(g: Gates, l: Layer, s: Cell, x: Vector)
    requires IsLayer(l, |x|) && IsCell(s, l.hidden)
    ensures OneBiasStep(g, Collapse(l, |x|), s, x) == TwoBiasStep(g, l, s, x)
  {
    assert Plus(Plus(Apply(l.ih, x), l.biasIh), Plus(Apply(l.hh, s.h), l.biasHh)) ==
           Plus(Plus(Apply(l.ih, x), Apply(l.hh, s.h)), Plus(l.biasIh, l.biasHh));
  }

  // ----- Stacks -----

  function Inputs(layers: seq<Layer>, inputs: nat, i: nat): nat
    requires i <= |layers|
  {
    if i == 0 then inputs else layers[i - 1].hidden
  }

  predicate IsStack(layers: seq<Layer>, inputs: nat) {
    forall i :: 0 <= i < |layers| ==> IsLayer(layers[i], Inputs(layers, inputs, i))
  }

  predicate IsState(cells: seq<Cell>, layers: seq<Layer>) {
    |cells| == |layers| && forall i :: 0 <= i < |layers| ==> IsCell(cells[i], layers[i].hidden)
  }

  function Output(cells: seq<Cell>, x: Vector): Vector {
    if cells == [] then x else cells[|cells| - 1].h
  }

  lemma StackFront(layers: seq<Layer>, inputs: nat, cells: seq<Cell>)
    requires IsStack(layers, inputs) && IsState(cells, layers) && layers != []
    ensures IsStack(layers[..|layers| - 1], inputs) && IsState(cells[..|layers| - 1], layers[..|layers| - 1])
  {
    var n := |layers| - 1;
    assert forall i :: 0 <= i < n ==>
             layers[..n][i] == layers[i] && Inputs(layers[..n], inputs, i) == Inputs(layers, inputs, i);
  }

  lemma OutputWidth(layers: seq<Layer>, cells: seq<Cell>, x: Vector)
    requires IsState(cells, layers)
    ensures |Output(cells, x)| == Inputs(layers, |x|, |layers|)
  {
  }

  lemma StateSnoc(layers: seq<Layer>, below: seq<Cell>, s: Cell)
    requires layers != [] && IsState(below, layers[..|layers| - 1]) && IsCell(s, layers[|layers| - 1].hidden)
    ensures IsState(below + [s], layers)
  {
  }

  /** One time step through all layers: each takes the hidden state of the one below. */
  function TwoBias(g: Gates, layers: seq<Layer>, cells: seq<Cell>, x: Vector): (r: seq<Cell>)
    requires IsStack(layers, |x|) && IsState(cells, layers)
    ensures IsState(r, layers)
  {
    if layers == [] then []
    else
      var n := |layers| - 1;
      StackFront(layers, |x|, cells);
      var below := TwoBias(g, layers[..n], cells[..n], x);
      OutputWidth(layers[..n], below, x);
      var s := TwoBiasStep(g, layers[n], cells[n], Output(below, x));
      StateSnoc(layers, below, s);
      below + [s]
  }

  ghost predicate Collapses(layers: seq<Layer>, inputs: nat, shipped: seq<Collapsed>)
    requires IsStack(layers, inputs)
  {
    |shipped| == |layers| &&
    forall i :: 0 <= i < |layers| ==> shipped[i] == Collapse(layers[i], Inputs(layers, inputs, i))
  }

  function OneBias(g: Gates, ghost layers: seq<Layer>, shipped: seq<Collapsed>, cells: seq<Cell>, x: Vector)
    : (r: seq<Cell>)
    requires IsStack(layers, |x|) && Collapses(layers, |x|, shipped) && IsState(cells, layers)
    ensures IsState(r, layers)
  {
    if shipped == [] then []
    else
      var n := |shipped| - 1;
      StackFront(layers, |x|, cells);
      var below := OneBias(g, layers[..n], shipped[..n], cells[..n], x);
      OutputWidth(layers[..n], below, x);
      var s := OneBiasStep(g, shipped[n], cells[n], Output(below, x));
      StateSnoc(layers, below, s);
      below + [s]
  }

  lemma {:induction false} StackPreserved(g: Gates, layers: seq<Layer>, shipped: seq<Collapsed>, cells: seq<Cell>,
                                          x: Vector)
    requires IsStack(layers, |x|) && Collapses(layers, |x|, shipped) && IsState(cells, layers)
    ensures OneBias(g, layers, shipped, cells, x) == TwoBias(g, layers, cells, x)
  {
    if layers != [] {
      var n := |layers| - 1;
      StackPreserved(g, layers[..n], shipped[..n], cells[..n], x);
      StepPreserved(g, layers[n], cells[n], Output(TwoBias(g, layers[..n], cells[..n], x), x));
    }
  }

  predicate AreInputs(xs: seq<Vector>, n: nat) {
    forall i :: 0 <= i < |xs| ==> |xs[i]| == n
  }

  function TwoBiasRun(g: Gates, layers: seq<Layer>, start: seq<Cell>, xs: seq<Vector>, n: nat): (r: seq<Cell>)
    requires IsStack(layers, n) && IsState(start, layers) && AreInputs(xs, n)
    ensures IsState(r, layers)
  {
    if xs == [] then start
    else TwoBias(g, layers, TwoBiasRun(g, layers, start, xs[..|xs| - 1], n), xs[|xs| - 1])
  }

  function OneBiasRun(g: Gates, ghost layers: seq<Layer>, shipped: seq<Collapsed>, start: seq<Cell>,
                      xs: seq<Vector>, n: nat): (r: seq<Cell>)
    requires IsStack(layers, n) && Collapses(layers, n, shipped) && IsState(start, layers) && AreInputs(xs, n)
    ensures IsState(r, layers)
  {
    if xs == [] then start
    else OneBias(g, layers, shipped, OneBiasRun(g, layers, shipped, start, xs[..|xs| - 1], n), xs[|xs| - 1])
  }

  /** For every input sequence, depth and width, the collapsed layers reach the same
      hidden and cell states as the two-bias ones. */
  lemma {:induction false} RunPreserved(g: Gates, layers: seq<Layer>, shipped: seq<Collapsed>, start: seq<Cell>,
                                        xs: seq<Vector>, n: nat)
    requires IsStack(layers, n) && Collapses(layers, n, shipped) && IsState(start, layers) && AreInputs(xs, n)
    ensures OneBiasRun(g, layers, shipped, start, xs, n) == TwoBiasRun(g, layers, start, xs, n)
  {
    if xs != [] {
      RunPreserved(g, layers, shipped, start, xs[..|xs| - 1], n);
      StackPreserved(g, layers, shipped, TwoBiasRun(g, layers, start, xs[..|xs| - 1], n), xs[|xs| - 1]);
    }
  }
}
