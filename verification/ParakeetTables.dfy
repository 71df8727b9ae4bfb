/** The Parakeet tensor tables: for every table row, the checkpoint name it reads and
    the GGUF name it writes, and how a name gives its table and row away. */
module ParakeetTables {
  import opened Vocabulary
  import opened DottedNames
  import opened Sequences

  /** What one call of an emitter reads and writes. */
  datatype Move = Copy(source: Name, target: Name) | Combine(left: Name, right: Name, target: Name)

  /** The tables; those of a layer, an LSTM layer or a speaker kernel carry its index. */
  datatype Group =
    | Stem | Layer(index: nat) | CtcTable | PredictorEmbedding | PredictorLstm(index: nat) | JointTable
    | VadTable | PromptTable | Speaker(index: nat) | Background(index: nat)

  // ----- Names -----

  function Two(a: Token, b: Token): Name {
    Dot(W(a), Last(W(b)))
  }

  function Three(a: Token, b: Token, c: Token): Name {
    Dot(W(a), Two(b, c))
  }

  function Parameter(k: nat): Name {
    Last(W(P(if k % 2 == 0 then Weight else Bias)))
  }

  // ----- Tables -----

  function StemRow(k: nat): (r: (Name, Name))
    requires k < 12
  {
    var rest :=
      if k < 10 then
        var slot := match k / 2 case 0 => 0 case 1 => 2 case 2 => 3 case 3 => 5 case _ => 6;
        Dot(W(M(Conv)), Dot(N(slot), Parameter(k)))
      else Dot(W(M(Out)), Parameter(k));
    (Dot(W(M(Encoder)), Dot(W(M(PreEncode)), rest)), Dot(W(M(Enc)), Dot(W(M(PreEncode)), rest)))
  }

  const BLOCK_ROWS: nat := 26
  const RUNNING_ROWS: nat := 28
  const ALL_ROWS: nat := 39

  /** The rows of one encoder block: the table proper, the running statistics of a
      batch norm, the optional biases. */
  function BlockRow(k: nat): (Name, Name)
    requires k < ALL_ROWS
  {
    if k < BLOCK_ROWS then BlockTableRow(k)
    else if k < RUNNING_ROWS then
      var running := G(if k == 26 then RunningMean else RunningVar);
      (Three(M(Conv), B(BatchNorm), running), Three(M(Conv), G(Bn), running))
    else BiasTableRow(k - RUNNING_ROWS)
  }

  function BlockTableRow(k: nat): (Name, Name)
    requires k < BLOCK_ROWS
  {
    match k
    case 0 => (Two(B(NormFeedForward1), P(Weight)), Two(G(NormFf1), P(Weight)))
    case 1 => (Two(B(NormFeedForward1), P(Bias)), Two(G(NormFf1), P(Bias)))
    case 2 => (Three(B(FeedForward1), B(Linear1), P(Weight)), Three(G(Ff1), B(Linear1), P(Weight)))
    case 3 => (Three(B(FeedForward1), B(Linear2), P(Weight)), Three(G(Ff1), B(Linear2), P(Weight)))
    case 4 => (Two(B(NormSelfAtt), P(Weight)), Two(G(NormAttn), P(Weight)))
    case 5 => (Two(B(NormSelfAtt), P(Bias)), Two(G(NormAttn), P(Bias)))
    case 6 => (Three(A(SelfAttn), A(LinearQ), P(Weight)), Three(G(Attn), A(LinearQ), P(Weight)))
    case 7 => (Three(A(SelfAttn), A(LinearK), P(Weight)), Three(G(Attn), A(LinearK), P(Weight)))
    case 8 => (Three(A(SelfAttn), A(LinearV), P(Weight)), Three(G(Attn), A(LinearV), P(Weight)))
    case 9 => (Three(A(SelfAttn), A(LinearOut), P(Weight)), Three(G(Attn), A(LinearOut), P(Weight)))
    case 10 => (Three(A(SelfAttn), A(LinearPos), P(Weight)), Three(G(Attn), A(LinearPos), P(Weight)))
    case 11 => (Two(A(SelfAttn), A(PosBiasU)), Two(G(Attn), A(PosBiasU)))
    case 12 => (Two(A(SelfAttn), A(PosBiasV)), Two(G(Attn), A(PosBiasV)))
    case 13 => (Two(B(NormConv), P(Weight)), Two(B(NormConv), P(Weight)))
    case 14 => (Two(B(NormConv), P(Bias)), Two(B(NormConv), P(Bias)))
    case 15 => (Three(M(Conv), B(PointwiseConv1), P(Weight)), Three(M(Conv), G(Pointwise1), P(Weight)))
    case 16 => (Three(M(Conv), B(DepthwiseConv), P(Weight)), Three(M(Conv), G(Depthwise), P(Weight)))
    case 17 => (Three(M(Conv), B(PointwiseConv2), P(Weight)), Three(M(Conv), G(Pointwise2), P(Weight)))
    case 18 => (Three(M(Conv), B(BatchNorm), P(Weight)), Three(M(Conv), G(Bn), P(Weight)))
    case 19 => (Three(M(Conv), B(BatchNorm), P(Bias)), Three(M(Conv), G(Bn), P(Bias)))
    case 20 => (Two(B(NormFeedForward2), P(Weight)), Two(G(NormFf2), P(Weight)))
    case 21 => (Two(B(NormFeedForward2), P(Bias)), Two(G(NormFf2), P(Bias)))
    case 22 => (Three(B(FeedForward2), B(Linear1), P(Weight)), Three(G(Ff2), B(Linear1), P(Weight)))
    case 23 => (Three(B(FeedForward2), B(Linear2), P(Weight)), Three(G(Ff2), B(Linear2), P(Weight)))
    case 24 => (Two(B(NormOut), P(Weight)), Two(B(NormOut), P(Weight)))
    case 25 => (Two(B(NormOut), P(Bias)), Two(B(NormOut), P(Bias)))
  }

  function BiasTableRow(k: nat): (Name, Name)
    requires k < 11
  {
    match k
    case 0 => (Three(B(FeedForward1), B(Linear1), P(Bias)), Three(G(Ff1), B(Linear1), P(Bias)))
    case 1 => (Three(B(FeedForward1), B(Linear2), P(Bias)), Three(G(Ff1), B(Linear2), P(Bias)))
    case 2 => (Three(A(SelfAttn), A(LinearQ), P(Bias)), Three(G(Attn), A(LinearQ), P(Bias)))
    case 3 => (Three(A(SelfAttn), A(LinearK), P(Bias)), Three(G(Attn), A(LinearK), P(Bias)))
    case 4 => (Three(A(SelfAttn), A(LinearV), P(Bias)), Three(G(Attn), A(LinearV), P(Bias)))
    case 5 => (Three(A(SelfAttn), A(LinearOut), P(Bias)), Three(G(Attn), A(LinearOut), P(Bias)))
    case 6 => (Three(M(Conv), B(PointwiseConv1), P(Bias)), Three(M(Conv), G(Pointwise1), P(Bias)))
    case 7 => (Three(M(Conv), B(DepthwiseConv), P(Bias)), Three(M(Conv), G(Depthwise), P(Bias)))
    case 8 => (Three(M(Conv), B(PointwiseConv2), P(Bias)), Three(M(Conv), G(Pointwise2), P(Bias)))
    case 9 => (Three(B(FeedForward2), B(Linear1), P(Bias)), Three(G(Ff2), B(Linear1), P(Bias)))
    case 10 => (Three(B(FeedForward2), B(Linear2), P(Bias)), Three(G(Ff2), B(Linear2), P(Bias)))
  }

  /** The row that a name of a block table, old or new, comes from. */
  function BlockNumber(n: Name): nat {
    match n
    case Dot(W(t), Last(W(u))) => PairNumber(t, u)
    case Dot(W(t), Dot(W(u), Last(W(v)))) => TripleNumber(t, u, v)
    case _ => ALL_ROWS
  }

  function PairNumber(t: Token, u: Token): nat {
    var bias := if u == P(Bias) then 1 else 0;
    match t
    case G(NormFf1) | B(NormFeedForward1) => bias
    case G(NormAttn) | B(NormSelfAtt) => 4 + bias
    case G(Attn) | A(SelfAttn) => if u == A(PosBiasU) then 11 else 12
    case B(NormConv) => 13 + bias
    case G(NormFf2) | B(NormFeedForward2) => 20 + bias
    case _ => 24 + bias
  }

  function TripleNumber(t: Token, u: Token, v: Token): nat {
    var bias := v == P(Bias);
    match u
    case B(Linear1) =>
      if t == G(Ff1) || t == B(FeedForward1) then (if bias then 28 else 2) else (if bias then 37 else 22)
    case B(Linear2) =>
      if t == G(Ff1) || t == B(FeedForward1) then (if bias then 29 else 3) else (if bias then 38 else 23)
    case A(LinearQ) => if bias then 30 else 6
    case A(LinearK) => if bias then 31 else 7
    case A(LinearV) => if bias then 32 else 8
    case A(LinearOut) => if bias then 33 else 9
    case A(LinearPos) => 10
    case G(Pointwise1) | B(PointwiseConv1) => if bias then 34 else 15
    case G(Depthwise) | B(DepthwiseConv) => if bias then 35 else 16
    case G(Pointwise2) | B(PointwiseConv2) => if bias then 36 else 17
    case _ => if bias then 19 else if v == G(RunningMean) then 26 else if v == G(RunningVar) then 27 else 18
  }

  lemma FirstOldNamesTellRow(k: nat)
    requires k < 9
    ensures BlockNumber(BlockTableRow(k).0) == k
  {
  }

  lemma MiddleOldNamesTellRow(k: nat)
    requires 9 <= k < 18
    ensures BlockNumber(BlockTableRow(k).0) == k
  {
  }

  lemma LastOldNamesTellRow(k: nat)
    requires 18 <= k < BLOCK_ROWS
    ensures BlockNumber(BlockTableRow(k).0) == k
  {
  }

  lemma BiasOldNamesTellRow(k: nat)
    requires k < 11
    ensures BlockNumber(BiasTableRow(k).0) == k + RUNNING_ROWS
  {
  }

  lemma FirstNewNamesTellRow(k: nat)
    requires k < 9
    ensures BlockNumber(BlockTableRow(k).1) == k
  {
  }

  lemma MiddleNewNamesTellRow(k: nat)
    requires 9 <= k < 18
    ensures BlockNumber(BlockTableRow(k).1) == k
  {
  }

  lemma LastNewNamesTellRow(k: nat)
    requires 18 <= k < BLOCK_ROWS
    ensures BlockNumber(BlockTableRow(k).1) == k
  {
  }

  lemma BiasNewNamesTellRow(k: nat)
    requires k < 11
    ensures BlockNumber(BiasTableRow(k).1) == k + RUNNING_ROWS
  {
  }

  lemma BlockNamesTellRow(k: nat)
    requires k < ALL_ROWS
    ensures BlockNumber(BlockRow(k).0) == k && BlockNumber(BlockRow(k).1) == k
  {
    if k < 9 {
      FirstOldNamesTellRow(k);
      FirstNewNamesTellRow(k);
    } else if k < 18 {
      MiddleOldNamesTellRow(k);
      MiddleNewNamesTellRow(k);
    } else if k < BLOCK_ROWS {
      LastOldNamesTellRow(k);
      LastNewNamesTellRow(k);
    } else if RUNNING_ROWS <= k {
      BiasOldNamesTellRow(k - RUNNING_ROWS);
      BiasNewNamesTellRow(k - RUNNING_ROWS);
    }
  }

  function LayerRow(i: nat, k: nat): (Name, Name)
    requires k < ALL_ROWS
  {
    (Dot(W(M(Encoder)), Dot(W(M(Layers)), Dot(N(i), BlockRow(k).0))),
     Dot(W(M(Enc)), Dot(W(M(Blocks)), Dot(N(i), BlockRow(k).1))))
  }

  function CtcRow(k: nat): (Name, Name) {
    (Dot(W(M(Decoder)), Dot(W(H(DecoderLayers)), Dot(N(0), Parameter(k)))),
     Dot(W(M(Head)), Dot(W(K(Ctc)), Parameter(k))))
  }

  function LstmSource(stem: ParameterWord, i: nat): Name {
    Dot(W(M(Decoder)), Dot(W(M(Prediction)), Dot(W(H(DecRnn)), Dot(W(H(Lstm)), Last(I(P(stem), i))))))
  }

  function LstmTarget(i: nat, slot: Token): Name {
    Dot(W(M(Pred)), Dot(W(H(Lstm)), Dot(N(i), Last(W(slot)))))
  }

  function JointRow(k: nat): (Name, Name) {
    match k / 2
    case 0 => (Dot(W(M(Joint)), Dot(W(M(Enc)), Parameter(k))), Dot(W(M(Joint)), Dot(W(M(Enc)), Parameter(k))))
    case 1 => (Dot(W(M(Joint)), Dot(W(M(Pred)), Parameter(k))), Dot(W(M(Joint)), Dot(W(M(Pred)), Parameter(k))))
    case _ =>
      (Dot(W(M(Joint)), Dot(W(M(JointNet)), Dot(N(2), Parameter(k)))),
       Dot(W(M(Joint)), Dot(W(M(Out)), Parameter(k))))
  }

  function VadRow(k: nat): (Name, Name) {
    var part := match k / 2 case 0 => H(Proj) case 1 => H(Ctx) case _ => M(Out);
    (Dot(W(H(VadHead)), Dot(W(part), Parameter(k))), Dot(W(K(Vad)), Dot(W(part), Parameter(k))))
  }

  function PromptRow(k: nat): (Name, Name) {
    var slot := if k < 2 then 0 else 2;
    (Dot(W(K(PromptKernel)), Dot(N(slot), Parameter(k))),
     Dot(W(K(Prompt)), Dot(W(K(Mlp)), Dot(N(slot), Parameter(k)))))
  }

  function KernelRow(from: Token, to: Token, i: nat, k: nat): (Name, Name) {
    var slot := if k < 2 then 0 else 3;
    (Dot(W(from), Dot(N(i), Dot(N(slot), Parameter(k)))),
     Dot(W(M(Enc)), Dot(W(to), Dot(N(i), Dot(N(slot), Parameter(k))))))
  }

  function RowCount(g: Group): (n: nat)
    ensures n > 0
  {
    match g
    case Stem => 12
    case Layer(_) => ALL_ROWS
    case CtcTable => 2
    case PredictorEmbedding => 1
    case PredictorLstm(_) => 3
    case JointTable => 6
    case VadTable => 6
    case PromptTable => 4
    case Speaker(_) => 4
    case Background(_) => 4
  }

  function CopyRow(row: (Name, Name)): Move {
    Copy(row.0, row.1)
  }

  function Row(g: Group, k: nat): Move
    requires k < RowCount(g)
  {
    match g
    case Stem => CopyRow(StemRow(k))
    case Layer(i) => CopyRow(LayerRow(i, k))
    case CtcTable => CopyRow(CtcRow(k))
    case PredictorEmbedding =>
      Copy(Dot(W(M(Decoder)), Dot(W(M(Prediction)), Two(H(Embed), P(Weight)))),
           Dot(W(M(Pred)), Two(H(Embed), P(Weight))))
    case PredictorLstm(i) =>
      if k == 0 then Copy(LstmSource(WeightIhL, i), LstmTarget(i, G(Wx)))
      else if k == 1 then Copy(LstmSource(WeightHhL, i), LstmTarget(i, G(Wh)))
      else Combine(LstmSource(BiasIhL, i), LstmSource(BiasHhL, i), LstmTarget(i, P(Bias)))
    case JointTable => CopyRow(JointRow(k))
    case VadTable => CopyRow(VadRow(k))
    case PromptTable => CopyRow(PromptRow(k))
    case Speaker(i) => CopyRow(KernelRow(K(SpkKernels), K(SpkKernel), i, k))
    case Background(i) => CopyRow(KernelRow(K(BgSpkKernels), K(BgSpkKernel), i, k))
  }

  // ----- Reading the table and the row off a name -----

  datatype Side = From | To

  function Names(side: Side, m: Move): seq<Name> {
    if side.To? then [m.target]
    else if m.Copy? then [m.source]
    else [m.left, m.right]
  }

  function IndexOf(n: Name): nat {
    if n.part.N? then n.part.index else if n.part.I? then n.part.layer else 0
  }

  function GroupOf(side: Side, n: Name): Group {
    if !n.Dot? || !n.rest.Dot? then Stem
    else
      var p, q, r := n.part, n.rest.part, n.rest.rest;
      if p == W(M(Joint)) then JointTable
      else if side.To? then
        if p == W(M(Head)) then CtcTable
        else if p == W(M(Pred)) then (if q == W(H(Embed)) then PredictorEmbedding else PredictorLstm(IndexOf(r)))
        else if p == W(K(Vad)) then VadTable
        else if p == W(K(Prompt)) then PromptTable
        else if q == W(M(PreEncode)) then Stem
        else if q == W(M(Blocks)) then Layer(IndexOf(r))
        else if q == W(K(SpkKernel)) then Speaker(IndexOf(r))
        else Background(IndexOf(r))
      else
        if p == W(H(VadHead)) then VadTable
        else if p == W(K(PromptKernel)) then PromptTable
        else if p == W(K(SpkKernels)) then Speaker(IndexOf(n.rest))
        else if p == W(K(BgSpkKernels)) then Background(IndexOf(n.rest))
        else if p == W(M(Encoder)) then (if q == W(M(PreEncode)) then Stem else Layer(IndexOf(r)))
        else if q == W(H(DecoderLayers)) then CtcTable
        else if r.part == W(H(Embed)) then PredictorEmbedding
        else if r.Dot? && r.rest.Dot? then PredictorLstm(IndexOf(r.rest.rest))
        else Stem
  }

  lemma NameTellsGroup(side: Side, g: Group, k: nat, n: Name)
    requires k < RowCount(g) && n in Names(side, Row(g, k))
    ensures GroupOf(side, n) == g
  {
  }

  lemma LayerRowNamesDiffer(side: Side, i: nat, j: nat, k: nat)
    requires j < k < ALL_ROWS
    ensures Disjoint(Names(side, Row(Layer(i), j)), Names(side, Row(Layer(i), k)))
  {
    BlockNamesTellRow(j);
    BlockNamesTellRow(k);
  }

  lemma RowNamesDiffer(side: Side, g: Group, j: nat, k: nat)
    requires j < k < RowCount(g)
    ensures Disjoint(Names(side, Row(g, j)), Names(side, Row(g, k)))
  {
    if g.Layer? {
      LayerRowNamesDiffer(side, g.index, j, k);
    }
  }
}
