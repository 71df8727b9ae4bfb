/** The tables of the converter, written out: what every row reads and what it writes. */
module PlainTables {
  import opened Vocabulary
  import opened DottedNames
  import opened ParakeetTables
  import opened HfKeys

  function Of5(a: string, b: string, c: string, d: string, e: string): List<string> {
    Cons(a, Of4(b, c, d, e))
  }

  /** The subsampling stem. */
  function StemText(k: nat): (List<string>, List<string>)
    requires k < 12
  {
    match k
    case 0 => (Of5("encoder", "pre_encode", "conv", "0", "weight"), Of5("enc", "pre_encode", "conv", "0", "weight"))
    case 1 => (Of5("encoder", "pre_encode", "conv", "0", "bias"), Of5("enc", "pre_encode", "conv", "0", "bias"))
    case 2 => (Of5("encoder", "pre_encode", "conv", "2", "weight"), Of5("enc", "pre_encode", "conv", "2", "weight"))
    case 3 => (Of5("encoder", "pre_encode", "conv", "2", "bias"), Of5("enc", "pre_encode", "conv", "2", "bias"))
    case 4 => (Of5("encoder", "pre_encode", "conv", "3", "weight"), Of5("enc", "pre_encode", "conv", "3", "weight"))
    case 5 => (Of5("encoder", "pre_encode", "conv", "3", "bias"), Of5("enc", "pre_encode", "conv", "3", "bias"))
    case 6 => (Of5("encoder", "pre_encode", "conv", "5", "weight"), Of5("enc", "pre_encode", "conv", "5", "weight"))
    case 7 => (Of5("encoder", "pre_encode", "conv", "5", "bias"), Of5("enc", "pre_encode", "conv", "5", "bias"))
    case 8 => (Of5("encoder", "pre_encode", "conv", "6", "weight"), Of5("enc", "pre_encode", "conv", "6", "weight"))
    case 9 => (Of5("encoder", "pre_encode", "conv", "6", "bias"), Of5("enc", "pre_encode", "conv", "6", "bias"))
    case 10 => (Of4("encoder", "pre_encode", "out", "weight"), Of4("enc", "pre_encode", "out", "weight"))
    case _ => (Of4("encoder", "pre_encode", "out", "bias"), Of4("enc", "pre_encode", "out", "bias"))
  }

  /** The CTC head. */
  function CtcText(k: nat): (List<string>, List<string>)
    requires k < 2
  {
    match k
    case 0 => (Of4("decoder", "decoder_layers", "0", "weight"), Of3("head", "ctc", "weight"))
    case _ => (Of4("decoder", "decoder_layers", "0", "bias"), Of3("head", "ctc", "bias"))
  }

  /** The joint network. */
  function JointText(k: nat): (List<string>, List<string>)
    requires k < 6
  {
    match k
    case 0 => (Of3("joint", "enc", "weight"), Of3("joint", "enc", "weight"))
    case 1 => (Of3("joint", "enc", "bias"), Of3("joint", "enc", "bias"))
    case 2 => (Of3("joint", "pred", "weight"), Of3("joint", "pred", "weight"))
    case 3 => (Of3("joint", "pred", "bias"), Of3("joint", "pred", "bias"))
    case 4 => (Of4("joint", "joint_net", "2", "weight"), Of3("joint", "out", "weight"))
    case _ => (Of4("joint", "joint_net", "2", "bias"), Of3("joint", "out", "bias"))
  }

  /** The voice activity head. */
  function VadText(k: nat): (List<string>, List<string>)
    requires k < 6
  {
    match k
    case 0 => (Of3("vad_head", "proj", "weight"), Of3("vad", "proj", "weight"))
    case 1 => (Of3("vad_head", "proj", "bias"), Of3("vad", "proj", "bias"))
    case 2 => (Of3("vad_head", "ctx", "weight"), Of3("vad", "ctx", "weight"))
    case 3 => (Of3("vad_head", "ctx", "bias"), Of3("vad", "ctx", "bias"))
    case 4 => (Of3("vad_head", "out", "weight"), Of3("vad", "out", "weight"))
    case _ => (Of3("vad_head", "out", "bias"), Of3("vad", "out", "bias"))
  }

  /** The prompt layers. */
  function PromptText(k: nat): (List<string>, List<string>)
    requires k < 4
  {
    match k
    case 0 => (Of3("prompt_kernel", "0", "weight"), Of4("prompt", "mlp", "0", "weight"))
    case 1 => (Of3("prompt_kernel", "0", "bias"), Of4("prompt", "mlp", "0", "bias"))
    case 2 => (Of3("prompt_kernel", "2", "weight"), Of4("prompt", "mlp", "2", "weight"))
    case _ => (Of3("prompt_kernel", "2", "bias"), Of4("prompt", "mlp", "2", "bias"))
  }

  /** A speaker kernel, behind its layer index. */
  function KernelText(k: nat): List<string>
    requires k < 4
  {
    match k
    case 0 => Of2("0", "weight")
    case 1 => Of2("0", "bias")
    case 2 => Of2("3", "weight")
    case _ => Of2("3", "bias")
  }

  /** The components of a name of up to six. */
  function Words(text: Spelling, n: Name): List<string> {
    match n
    case Last(a) => Cons(Show(text, a), Nil)
    case Dot(a, Last(b)) => Of2(Show(text, a), Show(text, b))
    case Dot(a, Dot(b, Last(c))) => Of3(Show(text, a), Show(text, b), Show(text, c))
    case Dot(a, Dot(b, Dot(c, Last(d)))) => Of4(Show(text, a), Show(text, b), Show(text, c), Show(text, d))
    case Dot(a, Dot(b, Dot(c, Dot(d, rest)))) =>
      Cons(Show(text, a), Cons(Show(text, b), Cons(Show(text, c), Cons(Show(text, d), Components(text, rest)))))
  }

  lemma WordsAreComponents(text: Spelling, n: Name)
    ensures Words(text, n) == Components(text, n)
  {
    if n.Dot? {
      assert Components(text, n) == Cons(Show(text, n.part), Components(text, n.rest));
      if n.rest.Dot? {
        assert Components(text, n.rest) == Cons(Show(text, n.rest.part), Components(text, n.rest.rest));
        if n.rest.rest.Dot? {
          assert Components(text, n.rest.rest) ==
                 Cons(Show(text, n.rest.rest.part), Components(text, n.rest.rest.rest));
        }
      }
    }
  }

  predicate Reads(row: (Name, Name), text: (List<string>, List<string>)) {
    Words(PARAKEET, row.0) == text.0 && Words(PARAKEET, row.1) == text.1
  }

  lemma StemRowsFrom0()
    ensures Reads(StemRow(0), StemText(0))
    ensures Reads(StemRow(1), StemText(1))
  {
  }

  lemma StemRowsFrom2()
    ensures Reads(StemRow(2), StemText(2))
    ensures Reads(StemRow(3), StemText(3))
  {
  }

  lemma StemRowsFrom4()
    ensures Reads(StemRow(4), StemText(4))
    ensures Reads(StemRow(5), StemText(5))
  {
  }

  lemma StemRowsFrom6()
    ensures Reads(StemRow(6), StemText(6))
    ensures Reads(StemRow(7), StemText(7))
  {
  }

  lemma StemRowsFrom8()
    ensures Reads(StemRow(8), StemText(8))
    ensures Reads(StemRow(9), StemText(9))
  {
  }

  lemma StemRowsFrom10()
    ensures Reads(StemRow(10), StemText(10))
    ensures Reads(StemRow(11), StemText(11))
  {
  }

  lemma JointRowsFrom0()
    ensures Reads(JointRow(0), JointText(0))
    ensures Reads(JointRow(1), JointText(1))
    ensures Reads(JointRow(2), JointText(2))
  {
  }

  lemma JointRowsFrom3()
    ensures Reads(JointRow(3), JointText(3))
    ensures Reads(JointRow(4), JointText(4))
    ensures Reads(JointRow(5), JointText(5))
  {
  }

  lemma VadRowsFrom0()
    ensures Reads(VadRow(0), VadText(0))
    ensures Reads(VadRow(1), VadText(1))
    ensures Reads(VadRow(2), VadText(2))
  {
  }

  lemma VadRowsFrom3()
    ensures Reads(VadRow(3), VadText(3))
    ensures Reads(VadRow(4), VadText(4))
    ensures Reads(VadRow(5), VadText(5))
  {
  }

  lemma StemInText(k: nat)
    requires k < 12
    ensures Reads(StemRow(k), StemText(k))
  {
    if k < 2 {
      StemRowsFrom0();
    } else if k < 4 {
      StemRowsFrom2();
    } else if k < 6 {
      StemRowsFrom4();
    } else if k < 8 {
      StemRowsFrom6();
    } else if k < 10 {
      StemRowsFrom8();
    } else {
      StemRowsFrom10();
    }
  }

  lemma JointInText(k: nat)
    requires k < 6
    ensures Reads(JointRow(k), JointText(k))
  {
    if k < 3 {
      JointRowsFrom0();
    } else {
      JointRowsFrom3();
    }
  }

  lemma VadInText(k: nat)
    requires k < 6
    ensures Reads(VadRow(k), VadText(k))
  {
    if k < 3 {
      VadRowsFrom0();
    } else {
      VadRowsFrom3();
    }
  }

  lemma PromptInText(k: nat)
    requires k < 4
    ensures Reads(PromptRow(k), PromptText(k))
  {
  }

  lemma CtcInText(k: nat)
    requires k < 2
    ensures Reads(CtcRow(k), CtcText(k))
  {
    assert Decimal(0) == "0";
  }

  lemma FirstComponent(text: Spelling, n: Name)
    requires n.Dot?
    ensures Components(text, n) == Cons(Show(text, n.part), Components(text, n.rest))
  {
  }

  lemma KernelInText(from: Token, to: Token, i: nat, k: nat)
    requires k < 4
    ensures var row := KernelRow(from, to, i, k);
            Components(PARAKEET, row.0) == Cons(PARAKEET.show(from), Cons(Decimal(i), KernelText(k))) &&
            Components(PARAKEET, row.1) == Cons("enc", Cons(PARAKEET.show(to), Cons(Decimal(i), KernelText(k))))
  {
    var row := KernelRow(from, to, i, k);
    assert Decimal(0) == "0" && Decimal(3) == "3";
    WordsAreComponents(PARAKEET, row.0);
    FirstComponent(PARAKEET, row.1);
    WordsAreComponents(PARAKEET, row.1.rest);
  }

  /** The table of a group outside the encoder blocks, as strings between dots. The rows
      of an LSTM layer are not all copied. */
  function RowText(g: Group, k: nat): (List<string>, List<string>)
    requires k < RowCount(g) && !g.Layer? && !g.PredictorLstm?
  {
    match g
    case Stem => StemText(k)
    case CtcTable => CtcText(k)
    case PredictorEmbedding => (Of4("decoder", "prediction", "embed", "weight"), Of3("pred", "embed", "weight"))
    case JointTable => JointText(k)
    case VadTable => VadText(k)
    case PromptTable => PromptText(k)
    case Speaker(i) =>
      (Cons("spk_kernels", Cons(Decimal(i), KernelText(k))),
       Cons("enc", Cons("spk_kernel", Cons(Decimal(i), KernelText(k)))))
    case Background(i) =>
      (Cons("bg_spk_kernels", Cons(Decimal(i), KernelText(k))),
       Cons("enc", Cons("bg_spk_kernel", Cons(Decimal(i), KernelText(k)))))
  }

  lemma EmbeddingInText()
    ensures var m := Row(PredictorEmbedding, 0);
            Words(PARAKEET, m.source) == Of4("decoder", "prediction", "embed", "weight") &&
            Words(PARAKEET, m.target) == Of3("pred", "embed", "weight")
  {
  }

  predicate MoveReads(m: Move, text: (List<string>, List<string>)) {
    m.Copy? && Components(PARAKEET, m.source) == text.0 && Components(PARAKEET, m.target) == text.1
  }

  lemma ReadsMove(row: (Name, Name), text: (List<string>, List<string>))
    requires Reads(row, text)
    ensures MoveReads(CopyRow(row), text)
  {
    WordsAreComponents(PARAKEET, row.0);
    WordsAreComponents(PARAKEET, row.1);
  }

  /** Every such row reads and writes what the plain table says. */
  lemma RowInText(g: Group, k: nat)
    requires k < RowCount(g) && !g.Layer? && !g.PredictorLstm?
    ensures MoveReads(Row(g, k), RowText(g, k))
  {
    match g
    case Stem =>
      StemInText(k);
      ReadsMove(StemRow(k), StemText(k));
    case CtcTable =>
      CtcInText(k);
      ReadsMove(CtcRow(k), CtcText(k));
    case PredictorEmbedding =>
      EmbeddingInText();
      ReadsMove((Row(g, k).source, Row(g, k).target), RowText(g, k));
    case JointTable =>
      JointInText(k);
      ReadsMove(JointRow(k), JointText(k));
    case VadTable =>
      VadInText(k);
      ReadsMove(VadRow(k), VadText(k));
    case PromptTable =>
      PromptInText(k);
      ReadsMove(PromptRow(k), PromptText(k));
    case Speaker(i) => KernelInText(K(SpkKernels), K(SpkKernel), i, k);
    case Background(i) => KernelInText(K(BgSpkKernels), K(BgSpkKernel), i, k);
  }

  // ----- The encoder blocks, word by word -----

  /** The word that a file has for one of the checkpoint's. */
  function Short(t: Token): Token {
    match t
    case M(Encoder) => M(Enc)
    case M(Layers) => M(Blocks)
    case A(SelfAttn) => G(Attn)
    case B(FeedForward1) => G(Ff1)
    case B(FeedForward2) => G(Ff2)
    case B(NormFeedForward1) => G(NormFf1)
    case B(NormFeedForward2) => G(NormFf2)
    case B(NormSelfAtt) => G(NormAttn)
    case B(PointwiseConv1) => G(Pointwise1)
    case B(PointwiseConv2) => G(Pointwise2)
    case B(DepthwiseConv) => G(Depthwise)
    case B(BatchNorm) => G(Bn)
    case _ => t
  }

  /** How the word is spelled in a checkpoint, and how in the file. */
  predicate Becomes(t: Token, from: string, to: string) {
    PARAKEET.show(t) == from && PARAKEET.show(Short(t)) == to
  }

  lemma TrunkWordsAre()
    ensures Becomes(M(Encoder), "encoder", "enc") && Becomes(M(Layers), "layers", "blocks")
    ensures Becomes(M(Conv), "conv", "conv") && Becomes(A(SelfAttn), "self_attn", "attn")
    ensures Becomes(P(Weight), "weight", "weight") && Becomes(P(Bias), "bias", "bias")
    ensures Becomes(G(RunningMean), "running_mean", "running_mean")
    ensures Becomes(G(RunningVar), "running_var", "running_var")
  {
  }

  lemma BlockWordsAre()
    ensures Becomes(B(FeedForward1), "feed_forward1", "ff1") && Becomes(B(FeedForward2), "feed_forward2", "ff2")
    ensures Becomes(B(NormFeedForward1), "norm_feed_forward1", "norm_ff1")
    ensures Becomes(B(NormFeedForward2), "norm_feed_forward2", "norm_ff2")
    ensures Becomes(B(NormSelfAtt), "norm_self_att", "norm_attn") && Becomes(B(NormConv), "norm_conv", "norm_conv")
  {
  }

  lemma ConvolutionWordsAre()
    ensures Becomes(B(NormOut), "norm_out", "norm_out") && Becomes(B(BatchNorm), "batch_norm", "bn")
    ensures Becomes(B(Linear1), "linear1", "linear1") && Becomes(B(Linear2), "linear2", "linear2")
    ensures Becomes(B(PointwiseConv1), "pointwise_conv1", "pointwise1")
    ensures Becomes(B(PointwiseConv2), "pointwise_conv2", "pointwise2")
    ensures Becomes(B(DepthwiseConv), "depthwise_conv", "depthwise")
  {
  }

  lemma AttentionWordsAre()
    ensures Becomes(A(LinearQ), "linear_q", "linear_q") && Becomes(A(LinearK), "linear_k", "linear_k")
    ensures Becomes(A(LinearV), "linear_v", "linear_v") && Becomes(A(LinearOut), "linear_out", "linear_out")
    ensures Becomes(A(LinearPos), "linear_pos", "linear_pos")
    ensures Becomes(A(PosBiasU), "pos_bias_u", "pos_bias_u") && Becomes(A(PosBiasV), "pos_bias_v", "pos_bias_v")
  {
  }

  function Shortened(n: Name): Name {
    var p := if n.part.W? then W(Short(n.part.token)) else n.part;
    if n.Dot? then Dot(p, Shortened(n.rest)) else Last(p)
  }

  lemma ShortPair(a: Token, b: Token)
    ensures Shortened(Two(a, b)) == Two(Short(a), Short(b))
  {
    assert Shortened(Last(W(b))) == Last(W(Short(b)));
  }

  lemma ShortTriple(a: Token, b: Token, c: Token)
    ensures Shortened(Three(a, b, c)) == Three(Short(a), Short(b), Short(c))
  {
    ShortPair(b, c);
  }

  lemma FirstRowsAreShort(k: nat)
    requires 0 <= k < 9
    ensures BlockTableRow(k).1 == Shortened(BlockTableRow(k).0)
  {
    var n := BlockTableRow(k).0;
    if n.rest.Dot? {
      ShortTriple(n.part.token, n.rest.part.token, n.rest.rest.part.token);
    } else {
      ShortPair(n.part.token, n.rest.part.token);
    }
  }

  lemma MiddleRowsAreShort(k: nat)
    requires 9 <= k < 18
    ensures BlockTableRow(k).1 == Shortened(BlockTableRow(k).0)
  {
    var n := BlockTableRow(k).0;
    if n.rest.Dot? {
      ShortTriple(n.part.token, n.rest.part.token, n.rest.rest.part.token);
    } else {
      ShortPair(n.part.token, n.rest.part.token);
    }
  }

  lemma LastRowsAreShort(k: nat)
    requires 18 <= k < 26
    ensures BlockTableRow(k).1 == Shortened(BlockTableRow(k).0)
  {
    var n := BlockTableRow(k).0;
    if n.rest.Dot? {
      ShortTriple(n.part.token, n.rest.part.token, n.rest.rest.part.token);
    } else {
      ShortPair(n.part.token, n.rest.part.token);
    }
  }

  lemma BiasRowsAreShort(k: nat)
    requires 0 <= k < 11
    ensures BiasTableRow(k).1 == Shortened(BiasTableRow(k).0)
  {
    var n := BiasTableRow(k).0;
    ShortTriple(n.part.token, n.rest.part.token, n.rest.rest.part.token);
  }

  lemma BlockRowsAreShort(k: nat)
    requires k < ALL_ROWS
    ensures BlockRow(k).1 == Shortened(BlockRow(k).0)
  {
    if k < 9 {
      FirstRowsAreShort(k);
    } else if k < 18 {
      MiddleRowsAreShort(k);
    } else if k < BLOCK_ROWS {
      LastRowsAreShort(k);
    } else if k < RUNNING_ROWS {
      ShortTriple(M(Conv), B(BatchNorm), BlockRow(k).0.rest.rest.part.token);
    } else {
      BiasRowsAreShort(k - RUNNING_ROWS);
    }
  }

  /** Every row of a block is copied, to the name that says the same word for word: no
      layer and no tensor of a layer is mistaken for another. */
  lemma LayerRowIsShort(i: nat, k: nat)
    requires k < ALL_ROWS
    ensures var m := Row(Layer(i), k); m.Copy? && m.target == Shortened(m.source)
  {
    var rest := BlockRow(k).0;
    BlockRowsAreShort(k);
    assert Shortened(Dot(N(i), rest)) == Dot(N(i), Shortened(rest));
    assert Shortened(Dot(W(M(Layers)), Dot(N(i), rest))) == Dot(W(M(Blocks)), Shortened(Dot(N(i), rest)));
  }
}
