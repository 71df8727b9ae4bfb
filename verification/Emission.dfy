/** Emitting the Parakeet tensors: the two emitters with their counters, the converter
    loops over layers and heads, and the closing count check. */
module Emission {
  import opened Vocabulary
  import opened DottedNames
  import opened Sequences
  import opened ParakeetTables
  import opened EmissionPlan

  // ----- Tensors -----

  function Volume(shape: seq<nat>): nat {
    if shape == [] then 1 else shape[0] * Volume(shape[1..])
  }

  datatype RawTensor = RawTensor(shape: seq<nat>, values: seq<real>)

  type Tensor = t: RawTensor | |t.values| == Volume(t.shape) witness RawTensor([], [0.0])

  function Add(a: Tensor, b: Tensor): Tensor
    requires a.shape == b.shape
  {
    RawTensor(a.shape, seq(|a.values|, i requires 0 <= i < |a.values| => a.values[i] + b.values[i]))
  }

  // ----- One emitter call -----

  datatype Outcome =
    | Fine
    | MissingTensor(name: string)
    | ShapeMismatch(left: string, right: string)
    | CountMismatch(added: nat, expected: nat)

  /** What the writer holds so far, in order, and the converter's counters. */
  datatype State = State(tensors: seq<(string, Tensor)>, consumed: set<string>, added: nat, outcome: Outcome)

  const START := State([], {}, 0, Fine)

  function Trouble(text: Spelling, sd: map<string, Tensor>, m: Move): Outcome {
    match m
    case Copy(s, _) =>
      if Render(text, s) !in sd then MissingTensor(Render(text, s)) else Fine
    case Combine(l, r, _) =>
      var a, b := Render(text, l), Render(text, r);
      if a !in sd then MissingTensor(a)
      else if b !in sd then MissingTensor(b)
      else if sd[a].shape != sd[b].shape then ShapeMismatch(a, b)
      else Fine
  }

  function ValueOf(text: Spelling, sd: map<string, Tensor>, m: Move): Tensor
    requires Trouble(text, sd, m).Fine?
  {
    match m
    case Copy(s, _) => sd[Render(text, s)]
    case Combine(l, r, _) => Add(sd[Render(text, l)], sd[Render(text, r)])
  }

  function Sources(text: Spelling, m: Move): set<string> {
    match m
    case Copy(s, _) => {Render(text, s)}
    case Combine(l, r, _) => {Render(text, l), Render(text, r)}
  }

  function Step(text: Spelling, sd: map<string, Tensor>, st: State, m: Move): State {
    if st.outcome != Fine then st
    else if Trouble(text, sd, m) != Fine then st.(outcome := Trouble(text, sd, m))
    else State(st.tensors + [(Render(text, m.target), ValueOf(text, sd, m))],
               st.consumed + Sources(text, m), st.added + 1, Fine)
  }

  function Run(text: Spelling, sd: map<string, Tensor>, st: State, moves: seq<Move>): State {
    if moves == [] then st
    else Step(text, sd, Run(text, sd, st, moves[..|moves| - 1]), moves[|moves| - 1])
  }

  function Emit(text: Spelling, sd: map<string, Tensor>, moves: seq<Move>): State {
    Run(text, sd, START, moves)
  }

  lemma RunNext(text: Spelling, sd: map<string, Tensor>, st: State, moves: seq<Move>, m: Move)
    ensures Run(text, sd, st, moves + [m]) == Step(text, sd, Run(text, sd, st, moves), m)
  {
    assert (moves + [m])[..|moves|] == moves;
  }

  lemma {:induction false} RunAppend(text: Spelling, sd: map<string, Tensor>, st: State, a: seq<Move>, b: seq<Move>)
    ensures Run(text, sd, st, a + b) == Run(text, sd, Run(text, sd, st, a), b)
  {
    if b == [] {
      assert a + b == a;
    } else {
      RunAppend(text, sd, st, a, b[..|b| - 1]);
      assert (a + b)[..|a + b| - 1] == a + b[..|b| - 1];
    }
  }

  /** A failure ends the run. */
  lemma {:induction false} FailureIsFinal(text: Spelling, sd: map<string, Tensor>, st: State, moves: seq<Move>)
    requires !st.outcome.Fine?
    ensures Run(text, sd, st, moves) == st
  {
    if moves != [] {
      FailureIsFinal(text, sd, st, moves[..|moves| - 1]);
    }
  }

  // ----- What a run produces -----

  function Texts(text: Spelling, names: seq<Name>): seq<string> {
    seq(|names|, i requires 0 <= i < |names| => Render(text, names[i]))
  }

  ghost predicate Writes(text: Spelling, sd: map<string, Tensor>, moves: seq<Move>, tensors: seq<(string, Tensor)>) {
    && |tensors| == |moves|
    && forall i :: 0 <= i < |moves| ==>
         Trouble(text, sd, moves[i]).Fine? && tensors[i] == (Render(text, moves[i].target), ValueOf(text, sd, moves[i]))
  }

  lemma TextsAppend(text: Spelling, a: seq<Name>, b: seq<Name>)
    ensures Elements(Texts(text, a + b)) == Elements(Texts(text, a)) + Elements(Texts(text, b))
  {
    assert Texts(text, a + b) == Texts(text, a) + Texts(text, b);
  }

  lemma MoveTexts(text: Spelling, m: Move)
    ensures Elements(Texts(text, Names(From, m))) == Sources(text, m)
  {
    var ts := Texts(text, Names(From, m));
    if m.Copy? {
      assert ts == [Render(text, m.source)];
    } else {
      assert ts == [Render(text, m.left), Render(text, m.right)];
    }
  }

  ghost predicate Complete(text: Spelling, sd: map<string, Tensor>, moves: seq<Move>, st: State) {
    Writes(text, sd, moves, st.tensors) && st.added == |moves| &&
    st.consumed == Elements(Texts(text, AllNames(From, moves)))
  }

  lemma StepCompletes(text: Spelling, sd: map<string, Tensor>, front: seq<Move>, m: Move, moves: seq<Move>, st: State)
    requires Complete(text, sd, front, st) && st.outcome.Fine? && moves == front + [m] && Trouble(text, sd, m).Fine?
    ensures Complete(text, sd, moves, Step(text, sd, st, m))
  {
    assert moves[..|moves| - 1] == front;
    TextsAppend(text, AllNames(From, front), Names(From, m));
    MoveTexts(text, m);
  }

  /** A run without failure writes each target with its value, in plan order, and has
      consumed exactly the names it read. */
  lemma {:induction false} RunIsComplete(text: Spelling, sd: map<string, Tensor>, moves: seq<Move>)
    requires Emit(text, sd, moves).outcome.Fine?
    ensures Complete(text, sd, moves, Emit(text, sd, moves))
  {
    if moves != [] {
      var front, m := moves[..|moves| - 1], moves[|moves| - 1];
      RunIsComplete(text, sd, front);
      StepCompletes(text, sd, front, m, moves, Emit(text, sd, front));
    }
  }

  ghost predicate FirstTrouble(text: Spelling, sd: map<string, Tensor>, moves: seq<Move>, k: nat) {
    && k < |moves| && !Trouble(text, sd, moves[k]).Fine?
    && forall j :: 0 <= j < k ==> Trouble(text, sd, moves[j]).Fine?
  }

  /** A run that fails reports the first row in trouble. */
  lemma {:induction false} RunStopsAtFirstTrouble(text: Spelling, sd: map<string, Tensor>, moves: seq<Move>)
    returns (k: nat)
    requires !Emit(text, sd, moves).outcome.Fine?
    ensures FirstTrouble(text, sd, moves, k) && Emit(text, sd, moves).outcome == Trouble(text, sd, moves[k])
  {
    var front := moves[..|moves| - 1];
    if Emit(text, sd, front).outcome.Fine? {
      RunIsComplete(text, sd, front);
      k := |front|;
      assert forall i :: 0 <= i < k ==> front[i] == moves[i];
    } else {
      k := RunStopsAtFirstTrouble(text, sd, front);
    }
  }

  // ----- Strings -----

  lemma BlockTableNamesAreNames(k: nat)
    requires k < BLOCK_ROWS
    ensures IsName(BlockTableRow(k).0) && IsName(BlockTableRow(k).1)
  {
  }

  lemma BiasTableNamesAreNames(k: nat)
    requires k < 11
    ensures IsName(BiasTableRow(k).0) && IsName(BiasTableRow(k).1)
  {
  }

  lemma BlockNamesAreNames(k: nat)
    requires k < ALL_ROWS
    ensures IsName(BlockRow(k).0) && IsName(BlockRow(k).1)
  {
    if k < BLOCK_ROWS {
      BlockTableNamesAreNames(k);
    } else if RUNNING_ROWS <= k {
      BiasTableNamesAreNames(k - RUNNING_ROWS);
    }
  }

  lemma LayerNamesAreNames(side: Side, i: nat, k: nat, n: Name)
    requires k < ALL_ROWS && n in Names(side, Row(Layer(i), k))
    ensures IsName(n)
  {
    BlockNamesAreNames(k);
    assert IsName(n.rest.rest.rest);
  }

  lemma PredictorNamesAreNames(side: Side, g: Group, k: nat, n: Name)
    requires (g.PredictorEmbedding? || g.PredictorLstm?) && k < RowCount(g) && n in Names(side, Row(g, k))
    ensures IsName(n)
  {
    assert n.rest.Dot? && n.rest.rest.Dot? ==> IsName(n.rest.rest.rest);
  }

  lemma KernelNamesAreNames(side: Side, g: Group, k: nat, n: Name)
    requires (g.Speaker? || g.Background? || g.Stem?) && k < RowCount(g) && n in Names(side, Row(g, k))
    ensures IsName(n)
  {
    assert IsName(n.rest.rest.rest);
  }

  lemma RowNamesAreNames(side: Side, g: Group, k: nat, n: Name)
    requires k < RowCount(g) && n in Names(side, Row(g, k))
    ensures IsName(n)
  {
    match g
    case Layer(i) => LayerNamesAreNames(side, i, k, n);
    case PredictorEmbedding => PredictorNamesAreNames(side, g, k, n);
    case PredictorLstm(_) => PredictorNamesAreNames(side, g, k, n);
    case Speaker(_) => KernelNamesAreNames(side, g, k, n);
    case Background(_) => KernelNamesAreNames(side, g, k, n);
    case Stem => KernelNamesAreNames(side, g, k, n);
    case VadTable =>
    case _ => assert n.rest.Dot? && n.rest.rest.Dot? ==> IsName(n.rest.rest.rest);
  }

  lemma {:induction false} PlanNamesAreNames(side: Side, c: Config, gs: seq<Group>, n: Name)
    requires n in AllNames(side, Plan(c, gs))
    ensures IsName(n)
  {
    var front, last := gs[..|gs| - 1], gs[|gs| - 1];
    assert front + [last] == gs;
    PlanOfLast(side, c, front, last);
    if n in AllNames(side, Plan(c, front)) {
      PlanNamesAreNames(side, c, front, n);
    } else {
      NameOfSomeMove(side, Moves(c, last), n);
      var i :| 0 <= i < |Moves(c, last)| && n in Names(side, Moves(c, last)[i]);
      RowNamesAreNames(side, last, RowsOf(c, last)[i], n);
    }
  }

  /** Distinct names are distinct strings. */
  lemma TextsDistinct(text: Spelling, names: seq<Name>)
    requires Legible(text) && forall n :: n in names ==> IsName(n)
    ensures Distinct(Texts(text, names)) <==> Distinct(names)
  {
    forall i, j | 0 <= i < j < |names|
      ensures Texts(text, names)[i] == Texts(text, names)[j] <==> names[i] == names[j]
    {
      assert names[i] in names && names[j] in names;
      if Render(text, names[i]) == Render(text, names[j]) {
        RenderInjective(text, names[i], names[j]);
      }
    }
  }

  lemma PlanTextsDistinct(text: Spelling, side: Side, c: Config)
    requires Legible(text)
    ensures Distinct(Texts(text, AllNames(side, Plan(c, Groups(c))))) <==> Distinct(c.speakerLayers)
  {
    forall n | n in AllNames(side, Plan(c, Groups(c))) ensures IsName(n) {
      PlanNamesAreNames(side, c, Groups(c), n);
    }
    TextsDistinct(text, AllNames(side, Plan(c, Groups(c))));
    NamesDistinctIff(side, c);
  }

  lemma {:induction false} TargetsInOrder(moves: seq<Move>)
    ensures AllNames(To, moves) == seq(|moves|, i requires 0 <= i < |moves| => moves[i].target)
  {
    if moves != [] {
      TargetsInOrder(moves[..|moves| - 1]);
    }
  }

  function TensorNames(tensors: seq<(string, Tensor)>): seq<string> {
    seq(|tensors|, i requires 0 <= i < |tensors| => tensors[i].0)
  }

  lemma WrittenNames(text: Spelling, sd: map<string, Tensor>, moves: seq<Move>, tensors: seq<(string, Tensor)>)
    requires Writes(text, sd, moves, tensors)
    ensures TensorNames(tensors) == Texts(text, AllNames(To, moves))
  {
    TargetsInOrder(moves);
  }

  /** The tensor is the sum of the two, element by element. */
  predicate IsSum(t: Tensor, a: Tensor, b: Tensor) {
    t.shape == a.shape == b.shape && |t.values| == |a.values| == |b.values| &&
    forall j :: 0 <= j < |t.values| ==> t.values[j] == a.values[j] + b.values[j]
  }

  /** What the row makes of the checkpoint: the tensor it reads, as it is, or the sum of
      the two it reads. */
  predicate Holds(text: Spelling, sd: map<string, Tensor>, m: Move, entry: (string, Tensor)) {
    entry.0 == Render(text, m.target) &&
    match m
    case Copy(s, _) => Render(text, s) in sd && entry.1 == sd[Render(text, s)]
    case Combine(l, r, _) =>
      Render(text, l) in sd && Render(text, r) in sd && IsSum(entry.1, sd[Render(text, l)], sd[Render(text, r)])
  }

  ghost predicate HoldsAll(text: Spelling, sd: map<string, Tensor>, moves: seq<Move>, tensors: seq<(string, Tensor)>) {
    |tensors| == |moves| && forall i :: 0 <= i < |moves| ==> Holds(text, sd, moves[i], tensors[i])
  }

  lemma WritesHold(text: Spelling, sd: map<string, Tensor>, moves: seq<Move>, tensors: seq<(string, Tensor)>)
    requires Writes(text, sd, moves, tensors)
    ensures HoldsAll(text, sd, moves, tensors)
  {
    forall i | 0 <= i < |moves| ensures Holds(text, sd, moves[i], tensors[i]) {
      assert Trouble(text, sd, moves[i]).Fine?;
    }
  }

  /** The checkpoint has every tensor that the row reads, and two to be added are of one
      shape. */
  predicate Ready(text: Spelling, sd: map<string, Tensor>, m: Move) {
    match m
    case Copy(s, _) => Render(text, s) in sd
    case Combine(l, r, _) =>
      Render(text, l) in sd && Render(text, r) in sd && sd[Render(text, l)].shape == sd[Render(text, r)].shape
  }

  /** What the trouble with a row is called. */
  lemma TroubleNames(text: Spelling, sd: map<string, Tensor>, m: Move)
    ensures var o := Trouble(text, sd, m);
            && (o.Fine? <==> Ready(text, sd, m))
            && (o.MissingTensor? <==> !(Sources(text, m) <= sd.Keys))
            && (o.MissingTensor? ==> o.name in Sources(text, m) && o.name !in sd)
            && (o.ShapeMismatch? ==> m.Combine? && o.left == Render(text, m.left) && o.right == Render(text, m.right))
            && !o.CountMismatch?
  {
  }

  /** Exactly which checkpoints are converted. */
  lemma ConvertsIff(text: Spelling, sd: map<string, Tensor>, moves: seq<Move>)
    ensures Emit(text, sd, moves).outcome.Fine? <==> forall i :: 0 <= i < |moves| ==> Ready(text, sd, moves[i])
  {
    if Emit(text, sd, moves).outcome.Fine? {
      RunIsComplete(text, sd, moves);
      forall i | 0 <= i < |moves| ensures Ready(text, sd, moves[i]) {
        assert Trouble(text, sd, moves[i]).Fine?;
      }
    } else {
      var k := RunStopsAtFirstTrouble(text, sd, moves);
      TroubleNames(text, sd, moves[k]);
    }
  }

  /** Whatever the checkpoint and the configuration, a conversion that meets no missing
      tensor and no shape mismatch passes the count check; it gives every tensor a name
      of its own exactly when no speaker-kernel layer is listed twice, and then it has
      consumed one checkpoint tensor per emitted one and one more per LSTM layer. */
  lemma EmissionIsExact(text: Spelling, sd: map<string, Tensor>, c: Config)
    requires Legible(text) && Emit(text, sd, Plan(c, Groups(c))).outcome.Fine?
    ensures var st := Emit(text, sd, Plan(c, Groups(c)));
            && HoldsAll(text, sd, Plan(c, Groups(c)), st.tensors)
            && st.added == |st.tensors| == Expected(c)
            && (Distinct(TensorNames(st.tensors)) <==> Distinct(c.speakerLayers))
            && (Distinct(c.speakerLayers) ==> |st.consumed| == st.added + PredictorLayers(c))
  {
    var moves := Plan(c, Groups(c));
    var st := Emit(text, sd, moves);
    RunIsComplete(text, sd, moves);
    PlanHasExpectedSize(From, c);
    WrittenNames(text, sd, moves, st.tensors);
    WritesHold(text, sd, moves, st.tensors);
    PlanTextsDistinct(text, To, c);
    PlanTextsDistinct(text, From, c);
    if Distinct(c.speakerLayers) {
      DistinctCount(Texts(text, AllNames(From, moves)));
    }
  }

  // ----- The converter -----

  function RunTable(text: Spelling, sd: map<string, Tensor>, c: Config): (State, Group) -> State {
    (st: State, g: Group) => Run(text, sd, st, Moves(c, g))
  }

  /** Table by table. */
  function RunTables(text: Spelling, sd: map<string, Tensor>, c: Config, st: State, gs: seq<Group>): State {
    Fold(RunTable(text, sd, c), st, gs)
  }

  lemma {:induction false} TablesRunPlan(text: Spelling, sd: map<string, Tensor>, c: Config, gs: seq<Group>)
    ensures RunTables(text, sd, c, START, gs) == Emit(text, sd, Plan(c, gs))
  {
    if gs != [] {
      var front := gs[..|gs| - 1];
      TablesRunPlan(text, sd, c, front);
      RunAppend(text, sd, START, Plan(c, front), Moves(c, gs[|gs| - 1]));
    }
  }

  /** After a failure no table runs. */
  lemma {:induction false} TablesOrFail(text: Spelling, sd: map<string, Tensor>, c: Config, st: State, gs: seq<Group>)
    requires !st.outcome.Fine? || gs == []
    ensures RunTables(text, sd, c, st, gs) == st
  {
    if gs != [] {
      TablesOrFail(text, sd, c, st, gs[..|gs| - 1]);
      FailureIsFinal(text, sd, st, Moves(c, gs[|gs| - 1]));
    }
  }

  lemma PickNext(g: Group, lo: nat, k: nat)
    requires lo <= k < RowCount(g)
    ensures Pick(g, Range(lo, k + 1)) == Pick(g, Range(lo, k)) + [Row(g, k)]
  {
  }

  lemma RunOrFail(text: Spelling, sd: map<string, Tensor>, st: State, moves: seq<Move>)
    ensures !st.outcome.Fine? || moves == [] ==> Run(text, sd, st, moves) == st
  {
    if !st.outcome.Fine? {
      FailureIsFinal(text, sd, st, moves);
    }
  }

  /** The rows of a block as the converter runs them. */
  lemma BlockRuns(text: Spelling, sd: map<string, Tensor>, c: Config, st: State, i: nat)
    ensures var table := Run(text, sd, st, Pick(Layer(i), Range(0, BLOCK_ROWS)));
            var running := if c.batchNorm && table.outcome.Fine?
                           then Run(text, sd, table, Pick(Layer(i), Range(BLOCK_ROWS, RUNNING_ROWS))) else table;
            var biases := if c.useBias && running.outcome.Fine?
                          then Run(text, sd, running, Pick(Layer(i), Range(RUNNING_ROWS, ALL_ROWS))) else running;
            Run(text, sd, st, Moves(c, Layer(i))) == biases
  {
    var a := Pick(Layer(i), Range(0, BLOCK_ROWS));
    var b := if c.batchNorm then Pick(Layer(i), Range(BLOCK_ROWS, RUNNING_ROWS)) else [];
    var d := if c.useBias then Pick(Layer(i), Range(RUNNING_ROWS, ALL_ROWS)) else [];
    assert Moves(c, Layer(i)) == a + b + d;
    RunAppend(text, sd, st, a + b, d);
    RunAppend(text, sd, st, a, b);
    RunOrFail(text, sd, Run(text, sd, st, a), b);
    RunOrFail(text, sd, Run(text, sd, st, a + b), d);
  }

  lemma HeadRuns(text: Spelling, sd: map<string, Tensor>, c: Config, st: State, n: nat)
    ensures RunTables(text, sd, c, st, HeadGroups(Transducer(n))) ==
            var embedded := Run(text, sd, st, Moves(c, PredictorEmbedding));
            Run(text, sd, RunTables(text, sd, c, embedded, LstmLayers(n)), Moves(c, JointTable))
  {
    var f := RunTable(text, sd, c);
    FoldNext(f, st, [], PredictorEmbedding);
    assert [] + [PredictorEmbedding] == [PredictorEmbedding];
    FoldAppend(f, st, [PredictorEmbedding], LstmLayers(n));
    FoldNext(f, st, [PredictorEmbedding] + LstmLayers(n), JointTable);
  }

  /** The sections of the converter, in order, run the plan. */
  lemma TrunkRuns(text: Spelling, sd: map<string, Tensor>, c: Config, st: State)
    ensures var s1 := RunTables(text, sd, c, st, [Stem]);
            var s2 := RunTables(text, sd, c, s1, EncoderLayers(c.layers));
            var s3 := RunTables(text, sd, c, s2, HeadGroups(c.head));
            var s4 := RunTables(text, sd, c, s3, Optional(VadTable, c.vad));
            RunTables(text, sd, c, st, Trunk(c)) == RunTables(text, sd, c, s4, Optional(PromptTable, c.prompt))
  {
    var f := RunTable(text, sd, c);
    var stem, head := [Stem] + EncoderLayers(c.layers), HeadGroups(c.head);
    FoldAppend(f, st, stem + head + Optional(VadTable, c.vad), Optional(PromptTable, c.prompt));
    FoldAppend(f, st, stem + head, Optional(VadTable, c.vad));
    FoldAppend(f, st, stem, head);
    FoldAppend(f, st, [Stem], EncoderLayers(c.layers));
  }

  lemma RunEnds(text: Spelling, sd: map<string, Tensor>, c: Config)
    ensures var st := Emit(text, sd, Plan(c, Groups(c)));
            (st.outcome.Fine? ==> st.added == Expected(c)) && !st.outcome.CountMismatch?
  {
    if Emit(text, sd, Plan(c, Groups(c))).outcome.Fine? {
      RunIsComplete(text, sd, Plan(c, Groups(c)));
      PlanHasExpectedSize(To, c);
    } else {
      var k := RunStopsAtFirstTrouble(text, sd, Plan(c, Groups(c)));
    }
  }

  class Emitter {
    const text: Spelling
    const sd: map<string, Tensor>
    var tensors: seq<(string, Tensor)>
    var consumed: set<string>
    var added: nat

    /** The state after an operation with this outcome. */
    ghost function After(o: Outcome): State
      reads this
    {
      State(tensors, consumed, added, o)
    }

    constructor (text: Spelling, sd: map<string, Tensor>)
      ensures this.text == text && this.sd == sd && After(Fine) == START
    {
      this.text, this.sd := text, sd;
      tensors, consumed, added := [], {}, 0;
    }

    method AddCopy(source: Name, target: Name) returns (o: Outcome)
      modifies this
      ensures After(o) == Step(text, sd, old(After(Fine)), Copy(source, target))
    {
      var nemo := Render(text, source);
      if nemo !in sd {
        return MissingTensor(nemo);
      }
      tensors := tensors + [(Render(text, target), sd[nemo])];
      consumed := consumed + {nemo};
      added := added + 1;
      o := Fine;
    }

    method AddCombined(left: Name, right: Name, target: Name) returns (o: Outcome)
      modifies this
      ensures After(o) == Step(text, sd, old(After(Fine)), Combine(left, right, target))
    {
      var a, b := Render(text, left), Render(text, right);
      if a !in sd {
        return MissingTensor(a);
      }
      if b !in sd {
        return MissingTensor(b);
      }
      if sd[a].shape != sd[b].shape {
        return ShapeMismatch(a, b);
      }
      tensors := tensors + [(Render(text, target), Add(sd[a], sd[b]))];
      consumed := consumed + {a, b};
      added := added + 1;
      o := Fine;
    }

    method EmitMove(m: Move) returns (o: Outcome)
      modifies this
      ensures After(o) == Step(text, sd, old(After(Fine)), m)
    {
      match m
      case Copy(s, t) => o := AddCopy(s, t);
      case Combine(l, r, t) => o := AddCombined(l, r, t);
    }

    /** Rows lo to hi of a table. */
    method EmitRows(g: Group, lo: nat, hi: nat) returns (o: Outcome)
      requires lo <= hi <= RowCount(g)
      modifies this
      ensures After(o) == Run(text, sd, old(After(Fine)), Pick(g, Range(lo, hi)))
    {
      o := Fine;
      for k := lo to hi
        invariant After(o) == Run(text, sd, old(After(Fine)), Pick(g, Range(lo, k)))
      {
        PickNext(g, lo, k);
        RunNext(text, sd, old(After(Fine)), Pick(g, Range(lo, k)), Row(g, k));
        if o.Fine? {
          o := EmitMove(Row(g, k));
        }
      }
    }

    /** One encoder block. */
    method EmitBlock(c: Config, i: nat) returns (o: Outcome)
      modifies this
      ensures After(o) == Run(text, sd, old(After(Fine)), Moves(c, Layer(i)))
    {
      ghost var table := Pick(Layer(i), Range(0, BLOCK_ROWS));
      ghost var running := if c.batchNorm then Pick(Layer(i), Range(BLOCK_ROWS, RUNNING_ROWS)) else [];
      ghost var biases := if c.useBias then Pick(Layer(i), Range(RUNNING_ROWS, ALL_ROWS)) else [];
      BlockRuns(text, sd, c, old(After(Fine)), i);
      o := EmitRows(Layer(i), 0, BLOCK_ROWS);
      if o.Fine? && c.batchNorm {
        o := EmitRows(Layer(i), BLOCK_ROWS, RUNNING_ROWS);
      }
      if o.Fine? && c.useBias {
        o := EmitRows(Layer(i), RUNNING_ROWS, ALL_ROWS);
      }
    }

    method EmitTable(c: Config, g: Group) returns (o: Outcome)
      modifies this
      ensures After(o) == Run(text, sd, old(After(Fine)), Moves(c, g))
    {
      if g.Layer? {
        o := EmitBlock(c, g.index);
      } else {
        o := EmitRows(g, 0, RowCount(g));
      }
    }

    method EmitLayers(c: Config) returns (o: Outcome)
      modifies this
      ensures After(o) == RunTables(text, sd, c, old(After(Fine)), EncoderLayers(c.layers))
    {
      o := Fine;
      for i := 0 to c.layers
        invariant After(o) == RunTables(text, sd, c, old(After(Fine)), EncoderLayers(i))
      {
        FoldNext(RunTable(text, sd, c), old(After(Fine)), EncoderLayers(i), Layer(i));
        assert EncoderLayers(i + 1) == EncoderLayers(i) + [Layer(i)];
        RunOrFail(text, sd, After(o), Moves(c, Layer(i)));
        if o.Fine? {
          o := EmitTable(c, Layer(i));
        }
      }
    }

    method EmitPredictor(c: Config, n: nat) returns (o: Outcome)
      modifies this
      ensures After(o) == RunTables(text, sd, c, old(After(Fine)), LstmLayers(n))
    {
      o := Fine;
      for i := 0 to n
        invariant After(o) == RunTables(text, sd, c, old(After(Fine)), LstmLayers(i))
      {
        FoldNext(RunTable(text, sd, c), old(After(Fine)), LstmLayers(i), PredictorLstm(i));
        assert LstmLayers(i + 1) == LstmLayers(i) + [PredictorLstm(i)];
        RunOrFail(text, sd, After(o), Moves(c, PredictorLstm(i)));
        if o.Fine? {
          o := EmitTable(c, PredictorLstm(i));
        }
      }
    }

    method EmitHead(c: Config) returns (o: Outcome)
      modifies this
      ensures After(o) == RunTables(text, sd, c, old(After(Fine)), HeadGroups(c.head))
    {
      match c.head
      case CtcHead =>
        FoldNext(RunTable(text, sd, c), old(After(Fine)), [], CtcTable);
        o := EmitTable(c, CtcTable);
      case Transducer(n) =>
        HeadRuns(text, sd, c, old(After(Fine)), n);
        o := EmitTable(c, PredictorEmbedding);
        TablesOrFail(text, sd, c, After(o), if o.Fine? then [] else LstmLayers(n));
        if o.Fine? {
          o := EmitPredictor(c, n);
        }
        RunOrFail(text, sd, After(o), if o.Fine? then [] else Moves(c, JointTable));
        if o.Fine? {
          o := EmitTable(c, JointTable);
        }
    }

    method EmitSpeakers(c: Config) returns (o: Outcome)
      modifies this
      ensures After(o) == RunTables(text, sd, c, old(After(Fine)), Speakers(c, |c.speakerLayers|))
    {
      o := Fine;
      for i := 0 to |c.speakerLayers|
        invariant After(o) == RunTables(text, sd, c, old(After(Fine)), Speakers(c, i))
      {
        var layer := c.speakerLayers[i];
        FoldNext(RunTable(text, sd, c), old(After(Fine)), Speakers(c, i), Speaker(layer));
        FoldNext(RunTable(text, sd, c), old(After(Fine)), Speakers(c, i) + [Speaker(layer)], Background(layer));
        RunOrFail(text, sd, After(o), Moves(c, Speaker(layer)));
        if o.Fine? {
          o := EmitTable(c, Speaker(layer));
        }
        RunOrFail(text, sd, After(o), Moves(c, Background(layer)));
        if o.Fine? && c.background {
          o := EmitTable(c, Background(layer));
        }
      }
    }

    method EmitOptional(c: Config, g: Group, present: bool) returns (o: Outcome)
      modifies this
      ensures After(o) == RunTables(text, sd, c, old(After(Fine)), Optional(g, present))
    {
      FoldNext(RunTable(text, sd, c), old(After(Fine)), [], g);
      assert [] + [g] == [g];
      o := Fine;
      if present {
        o := EmitTable(c, g);
      }
    }

    /** Everything before the speaker kernels. */
    method EmitTrunk(c: Config) returns (o: Outcome)
      modifies this
      ensures After(o) == RunTables(text, sd, c, old(After(Fine)), Trunk(c))
    {
      TrunkRuns(text, sd, c, old(After(Fine)));
      o := EmitOptional(c, Stem, true);
      TablesOrFail(text, sd, c, After(o), if o.Fine? then [] else EncoderLayers(c.layers));
      if o.Fine? {
        o := EmitLayers(c);
      }
      TablesOrFail(text, sd, c, After(o), if o.Fine? then [] else HeadGroups(c.head));
      if o.Fine? {
        o := EmitHead(c);
      }
      TablesOrFail(text, sd, c, After(o), if o.Fine? then [] else Optional(VadTable, c.vad));
      if o.Fine? {
        o := EmitOptional(c, VadTable, c.vad);
      }
      TablesOrFail(text, sd, c, After(o), if o.Fine? then [] else Optional(PromptTable, c.prompt));
      if o.Fine? {
        o := EmitOptional(c, PromptTable, c.prompt);
      }
    }

    /** The whole conversion, closed by the count check, which never fails. */
    method Convert(c: Config) returns (o: Outcome)
      requires After(Fine) == START
      modifies this
      ensures After(o) == Emit(text, sd, Plan(c, Groups(c))) && !o.CountMismatch?
    {
      FoldAppend(RunTable(text, sd, c), START, Trunk(c), Speakers(c, |c.speakerLayers|));
      TablesRunPlan(text, sd, c, Groups(c));
      o := EmitTrunk(c);
      TablesOrFail(text, sd, c, After(o), if o.Fine? then [] else Speakers(c, |c.speakerLayers|));
      if o.Fine? {
        o := EmitSpeakers(c);
      }
      RunEnds(text, sd, c);
      if o.Fine? {
        o := if added == Expected(c) then Fine else CountMismatch(added, Expected(c));
      }
    }
  }
}
