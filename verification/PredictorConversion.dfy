/** The predictor across the whole conversion: what is written for an LSTM layer, and that
    the shipped layers compute what the checkpoint's do. */
module PredictorConversion {
  import opened Vocabulary
  import opened DottedNames
  import opened ParakeetTables
  import opened EmissionPlan
  import opened Emission
  import L = Lstm
  import Linear

  // ----- From a written tensor back to its row -----

  lemma PlannedTargetIsName(c: Config, g: Group, k: nat)
    requires k < RowCount(g)
    ensures IsName(Row(g, k).target)
  {
    RowNamesAreNames(To, g, k, Row(g, k).target);
  }

  /** A tensor with the name of an LSTM row is that row's. */
  lemma OnlyThisRow(text: Spelling, i: nat, k: nat, g: Group, j: nat)
    requires Legible(text) && k < 3 && j < RowCount(g)
    requires Render(text, Row(g, j).target) == Render(text, Row(PredictorLstm(i), k).target)
    ensures Row(g, j) == Row(PredictorLstm(i), k)
  {
    RowNamesAreNames(To, g, j, Row(g, j).target);
    RowNamesAreNames(To, PredictorLstm(i), k, Row(PredictorLstm(i), k).target);
    RenderInjective(text, Row(g, j).target, Row(PredictorLstm(i), k).target);
    NameTellsGroup(To, g, j, Row(g, j).target);
    NameTellsGroup(To, PredictorLstm(i), k, Row(PredictorLstm(i), k).target);
  }

  lemma LstmIsPlanned(c: Config, i: nat, k: nat)
    requires c.head.Transducer? && i < c.head.predictorLayers && k < 3
    ensures Row(PredictorLstm(i), k) in Plan(c, Groups(c))
  {
    assert LstmLayers(c.head.predictorLayers)[i] == PredictorLstm(i);
    assert PredictorLstm(i) in HeadGroups(c.head);
    assert PredictorLstm(i) in Groups(c);
    assert RowsOf(c, PredictorLstm(i))[k] == k;
    RowIsPlanned(c, Groups(c), PredictorLstm(i), k);
  }

  // ----- The names, spelled out -----

  // decoder.prediction.dec_rnn.lstm.<stem><i>
  function Source(stem: string, i: nat): string {
    Join(Cons("decoder", Cons("prediction", Cons("dec_rnn", Cons("lstm", Cons(stem + Decimal(i), Nil))))))
  }

  // pred.lstm.<i>.<part>
  function Target(i: nat, part: string): string {
    Join(Cons("pred", Cons("lstm", Cons(Decimal(i), Cons(part, Nil)))))
  }

  lemma SourceComponents(text: Spelling, stem: ParameterWord, i: nat)
    ensures Components(text, LstmSource(stem, i)) ==
            Cons(text.show(M(Decoder)), Cons(text.show(M(Prediction)), Cons(text.show(H(DecRnn)),
              Cons(text.show(H(Lstm)), Cons(text.show(P(stem)) + Decimal(i), Nil)))))
  {
    var last := Last(I(P(stem), i));
    assert Components(text, Dot(W(H(Lstm)), last)) == Cons(text.show(H(Lstm)), Components(text, last));
    assert Components(text, Dot(W(H(DecRnn)), Dot(W(H(Lstm)), last))) ==
           Cons(text.show(H(DecRnn)), Components(text, Dot(W(H(Lstm)), last)));
  }

  lemma TargetComponents(text: Spelling, i: nat, part: Token)
    ensures Components(text, LstmTarget(i, part)) ==
            Cons(text.show(M(Pred)), Cons(text.show(H(Lstm)), Cons(Decimal(i), Cons(text.show(part), Nil))))
  {
    var last := Last(W(part));
    assert Components(text, Dot(N(i), last)) == Cons(Decimal(i), Components(text, last));
  }

  lemma SourceNames(stem: ParameterWord, i: nat)
    ensures Render(PARAKEET, LstmSource(stem, i)) == Source(PARAKEET.show(P(stem)), i)
  {
    SourceComponents(PARAKEET, stem, i);
    NameIsJoin(PARAKEET, LstmSource(stem, i));
  }

  lemma TargetNames(i: nat, part: Token)
    ensures Render(PARAKEET, LstmTarget(i, part)) == Target(i, PARAKEET.show(part))
  {
    TargetComponents(PARAKEET, i, part);
    NameIsJoin(PARAKEET, LstmTarget(i, part));
  }

  lemma NameIsJoin(text: Spelling, n: Name)
    requires text == PARAKEET
    ensures Render(text, n) == Join(Components(text, n))
  {
    ParakeetIsLegible();
    RenderIsJoin(text, n);
  }

  lemma LstmNames(i: nat)
    ensures var wx, wh := Row(PredictorLstm(i), 0), Row(PredictorLstm(i), 1);
            wx.Copy? && Render(PARAKEET, wx.source) == Source("weight_ih_l", i) &&
            wh.Copy? && Render(PARAKEET, wh.source) == Source("weight_hh_l", i) &&
            Render(PARAKEET, wx.target) == Target(i, "Wx") && Render(PARAKEET, wh.target) == Target(i, "Wh")
    ensures var bias := Row(PredictorLstm(i), 2);
            bias.Combine? && Render(PARAKEET, bias.left) == Source("bias_ih_l", i) &&
            Render(PARAKEET, bias.right) == Source("bias_hh_l", i) && Render(PARAKEET, bias.target) == Target(i, "bias")
  {
    SourceNames(WeightIhL, i);
    SourceNames(WeightHhL, i);
    SourceNames(BiasIhL, i);
    SourceNames(BiasHhL, i);
    TargetNames(i, G(Wx));
    TargetNames(i, G(Wh));
    TargetNames(i, P(Bias));
  }

  // ----- What is written for a layer -----

  function Written(sd: map<string, Tensor>, c: Config): seq<(string, Tensor)> {
    Emit(PARAKEET, sd, Plan(c, Groups(c))).tensors
  }

  predicate HasLayer(sd: map<string, Tensor>, i: nat) {
    Source("weight_ih_l", i) in sd && Source("weight_hh_l", i) in sd &&
    Source("bias_ih_l", i) in sd && Source("bias_hh_l", i) in sd
  }

  lemma LstmRowWritten(sd: map<string, Tensor>, c: Config, i: nat, k: nat)
    requires Emit(PARAKEET, sd, Plan(c, Groups(c))).outcome.Fine?
    requires c.head.Transducer? && i < c.head.predictorLayers && k < 3
    ensures exists e :: e in Written(sd, c) && e.0 == Render(PARAKEET, Row(PredictorLstm(i), k).target)
    ensures forall e :: e in Written(sd, c) && e.0 == Render(PARAKEET, Row(PredictorLstm(i), k).target) ==>
              Holds(PARAKEET, sd, Row(PredictorLstm(i), k), e)
  {
    ParakeetIsLegible();
    LstmRowWrittenAs(PARAKEET, sd, c, i, k);
  }

  lemma LstmRowWrittenAs(text: Spelling, sd: map<string, Tensor>, c: Config, i: nat, k: nat)
    requires Legible(text) && Emit(text, sd, Plan(c, Groups(c))).outcome.Fine?
    requires c.head.Transducer? && i < c.head.predictorLayers && k < 3
    ensures var tensors, row := Emit(text, sd, Plan(c, Groups(c))).tensors, Row(PredictorLstm(i), k);
            (exists e :: e in tensors && e.0 == Render(text, row.target)) &&
            (forall e :: e in tensors && e.0 == Render(text, row.target) ==> Holds(text, sd, row, e))
  {
    var moves := Plan(c, Groups(c));
    EmittedHold(text, sd, c);
    LstmIsPlanned(c, i, k);
    forall m | m in moves && Render(text, m.target) == Render(text, Row(PredictorLstm(i), k).target)
      ensures m == Row(PredictorLstm(i), k)
    {
      PlannedTargetTells(text, c, m, i, k);
    }
    OnlyRowWritten(text, sd, moves, Emit(text, sd, moves).tensors, Row(PredictorLstm(i), k));
  }

  lemma EmittedHold(text: Spelling, sd: map<string, Tensor>, c: Config)
    requires Legible(text) && Emit(text, sd, Plan(c, Groups(c))).outcome.Fine?
    ensures HoldsAll(text, sd, Plan(c, Groups(c)), Emit(text, sd, Plan(c, Groups(c))).tensors)
  {
    EmissionIsExact(text, sd, c);
  }

  lemma OnlyRowWritten(text: Spelling, sd: map<string, Tensor>, moves: seq<Move>, tensors: seq<(string, Tensor)>,
                       row: Move)
    requires HoldsAll(text, sd, moves, tensors) && row in moves
    requires forall m :: m in moves && Render(text, m.target) == Render(text, row.target) ==> m == row
    ensures exists e :: e in tensors && e.0 == Render(text, row.target)
    ensures forall e :: e in tensors && e.0 == Render(text, row.target) ==> Holds(text, sd, row, e)
  {
    PlannedIsWritten(text, sd, moves, tensors, row);
    forall e | e in tensors && e.0 == Render(text, row.target) ensures Holds(text, sd, row, e) {
      var m := WrittenIsPlanned(text, sd, moves, tensors, e);
    }
  }

  lemma PlannedTargetTells(text: Spelling, c: Config, m: Move, i: nat, k: nat)
    requires Legible(text) && m in Plan(c, Groups(c)) && k < 3
    requires Render(text, m.target) == Render(text, Row(PredictorLstm(i), k).target)
    ensures m == Row(PredictorLstm(i), k)
  {
    var g, r := PlannedIsRow(c, Groups(c), m);
    OnlyThisRow(text, i, k, g, r);
  }

  lemma PlannedIsWritten(text: Spelling, sd: map<string, Tensor>, moves: seq<Move>, tensors: seq<(string, Tensor)>,
                         m: Move)
    requires HoldsAll(text, sd, moves, tensors) && m in moves
    ensures exists e :: e in tensors && e.0 == Render(text, m.target)
  {
    var at :| 0 <= at < |moves| && moves[at] == m;
    assert Holds(text, sd, moves[at], tensors[at]);
    assert tensors[at] in tensors;
  }

  lemma WrittenIsPlanned(text: Spelling, sd: map<string, Tensor>, moves: seq<Move>, tensors: seq<(string, Tensor)>,
                         e: (string, Tensor)) returns (m: Move)
    requires HoldsAll(text, sd, moves, tensors) && e in tensors
    ensures m in moves && Holds(text, sd, m, e)
  {
    var at :| 0 <= at < |tensors| && tensors[at] == e;
    assert Holds(text, sd, moves[at], tensors[at]);
    m := moves[at];
  }

  /** Every successful conversion writes, for every LSTM layer, the two weights as they are
      and under the one bias the sum of the two, element by element; and whatever it writes
      under these names is that. */
  lemma LstmLayerWritten(sd: map<string, Tensor>, c: Config, i: nat)
    requires Emit(PARAKEET, sd, Plan(c, Groups(c))).outcome.Fine?
    requires c.head.Transducer? && i < c.head.predictorLayers
    ensures HasLayer(sd, i)
    ensures (Target(i, "Wx"), sd[Source("weight_ih_l", i)]) in Written(sd, c)
    ensures (Target(i, "Wh"), sd[Source("weight_hh_l", i)]) in Written(sd, c)
    ensures exists t :: (Target(i, "bias"), t) in Written(sd, c)
    ensures forall t :: (Target(i, "bias"), t) in Written(sd, c) ==>
              IsSum(t, sd[Source("bias_ih_l", i)], sd[Source("bias_hh_l", i)])
    ensures forall t :: (Target(i, "Wx"), t) in Written(sd, c) ==> t == sd[Source("weight_ih_l", i)]
    ensures forall t :: (Target(i, "Wh"), t) in Written(sd, c) ==> t == sd[Source("weight_hh_l", i)]
  {
    LstmNames(i);
    LstmRowWritten(sd, c, i, 0);
    LstmRowWritten(sd, c, i, 1);
    LstmRowWritten(sd, c, i, 2);
    var x :| x in Written(sd, c) && x.0 == Target(i, "Wx");
    var h :| h in Written(sd, c) && h.0 == Target(i, "Wh");
    var b :| b in Written(sd, c) && b.0 == Target(i, "bias");
    assert x == (Target(i, "Wx"), sd[Source("weight_ih_l", i)]);
    assert h == (Target(i, "Wh"), sd[Source("weight_hh_l", i)]);
    assert (Target(i, "bias"), b.1) in Written(sd, c);
  }

  // ----- The shipped predictor computes the same -----

  /** Row by row. */
  function Rows(values: seq<real>, width: nat): Linear.Matrix {
    if width == 0 || |values| < width then [] else [values[..width]] + Rows(values[width..], width)
  }

  function AsMatrix(t: Tensor): Linear.Matrix {
    if |t.shape| == 2 then Rows(t.values, t.shape[1]) else []
  }

  /** The layer as the checkpoint has it. */
  predicate InCheckpoint(sd: map<string, Tensor>, i: nat, l: L.Layer) {
    HasLayer(sd, i) &&
    l.ih == AsMatrix(sd[Source("weight_ih_l", i)]) && l.hh == AsMatrix(sd[Source("weight_hh_l", i)]) &&
    l.biasIh == sd[Source("bias_ih_l", i)].values && l.biasHh == sd[Source("bias_hh_l", i)].values
  }

  /** The layer as a reader of the file finds it. */
  ghost predicate InFile(tensors: seq<(string, Tensor)>, i: nat, r: L.Collapsed) {
    exists wx, wh, bias ::
      (Target(i, "Wx"), wx) in tensors && (Target(i, "Wh"), wh) in tensors && (Target(i, "bias"), bias) in tensors &&
      r.wx == AsMatrix(wx) && r.wh == AsMatrix(wh) && r.bias == bias.values
  }

  lemma SumIsPlus(t: Tensor, a: Tensor, b: Tensor)
    requires IsSum(t, a, b)
    ensures t.values == Linear.Plus(a.values, b.values)
  {
  }

  lemma ReadBackIsCollapsed(sd: map<string, Tensor>, c: Config, i: nat, l: L.Layer, inputs: nat, r: L.Collapsed)
    requires Emit(PARAKEET, sd, Plan(c, Groups(c))).outcome.Fine?
    requires c.head.Transducer? && i < c.head.predictorLayers && L.IsLayer(l, inputs)
    requires InCheckpoint(sd, i, l) && InFile(Written(sd, c), i, r) && r.hidden == l.hidden
    ensures r == L.Collapse(l, inputs)
  {
    LstmLayerWritten(sd, c, i);
    LayerIsCollapsed(Written(sd, c), sd, i, l, inputs, r);
  }

  lemma LayerIsCollapsed(tensors: seq<(string, Tensor)>, sd: map<string, Tensor>, i: nat, l: L.Layer, inputs: nat,
                         r: L.Collapsed)
    requires L.IsLayer(l, inputs) && InCheckpoint(sd, i, l) && InFile(tensors, i, r) && r.hidden == l.hidden
    requires forall t :: (Target(i, "bias"), t) in tensors ==>
               IsSum(t, sd[Source("bias_ih_l", i)], sd[Source("bias_hh_l", i)])
    requires forall t :: (Target(i, "Wx"), t) in tensors ==> t == sd[Source("weight_ih_l", i)]
    requires forall t :: (Target(i, "Wh"), t) in tensors ==> t == sd[Source("weight_hh_l", i)]
    ensures r == L.Collapse(l, inputs)
  {
    var wx, wh, bias :|
      (Target(i, "Wx"), wx) in tensors && (Target(i, "Wh"), wh) in tensors && (Target(i, "bias"), bias) in tensors &&
      r.wx == AsMatrix(wx) && r.wh == AsMatrix(wh) && r.bias == bias.values;
    SumIsPlus(bias, sd[Source("bias_ih_l", i)], sd[Source("bias_hh_l", i)]);
  }

  /** Whatever is read back from the written file as the predictor reaches, for every input
      sequence, the hidden and cell states of the checkpoint's two-bias predictor. */
  lemma ConvertedPredictorComputesTheSame(sd: map<string, Tensor>, c: Config, g: L.Gates, layers: seq<L.Layer>,
                                          shipped: seq<L.Collapsed>, start: seq<L.Cell>,
                                          xs: seq<Linear.Vector>, n: nat)
    requires Emit(PARAKEET, sd, Plan(c, Groups(c))).outcome.Fine?
    requires c.head.Transducer? && |layers| == |shipped| == c.head.predictorLayers
    requires L.IsStack(layers, n) && L.IsState(start, layers) && L.AreInputs(xs, n)
    requires forall i :: 0 <= i < |layers| ==>
               InCheckpoint(sd, i, layers[i]) && InFile(Written(sd, c), i, shipped[i]) &&
               shipped[i].hidden == layers[i].hidden
    ensures L.Collapses(layers, n, shipped)
    ensures L.OneBiasRun(g, layers, shipped, start, xs, n) == L.TwoBiasRun(g, layers, start, xs, n)
  {
    forall i | 0 <= i < |layers| ensures shipped[i] == L.Collapse(layers[i], L.Inputs(layers, n, i)) {
      ReadBackIsCollapsed(sd, c, i, layers[i], L.Inputs(layers, n, i), shipped[i]);
    }
    L.RunPreserved(g, layers, shipped, start, xs, n);
  }
}
