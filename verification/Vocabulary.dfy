/** The words of the checkpoint and GGUF tensor names of the Parakeet family, and
    the facts about their spelling that the name transformations rely on. */
module Vocabulary {
  predicate IsDigit(c: char) {
    '0' <= c <= '9'
  }

  /** Starts with something other than a digit; neither dot nor line feed. */
  predicate IsPlain(s: string) {
    s != [] && !IsDigit(s[0]) && forall i :: 0 <= i < |s| ==> s[i] != '.' && s[i] != '\n'
  }

  datatype ModuleWord =
    | Encoder | Subsampling | Layers | Linear | PreEncode | Conv | Out | Decoder | Prediction | Joint | Pred
    | Enc | Head | JointNet | Blocks

  datatype AttentionWord =
    | SelfAttn | QProj | KProj | VProj | OProj | RelativeKProj | LinearQ | LinearK | LinearV | LinearOut
    | LinearPos | BiasU | BiasV | PosBiasU | PosBiasV

  datatype BlockWord =
    | Norm | BatchNorm | FeedForward1 | FeedForward2 | Linear1 | Linear2 | NormFeedForward1
    | NormFeedForward2 | NormSelfAtt | NormConv | NormOut | PointwiseConv1 | PointwiseConv2 | DepthwiseConv

  datatype GgufWord =
    | NormFf1 | NormFf2 | Ff1 | Ff2 | NormAttn | Attn | Pointwise1 | Pointwise2 | Depthwise | Bn
    | RunningMean | RunningVar | Wx | Wh

  datatype HeadWord =
    | Embedding | Embed | Lstm | DecRnn | DecoderProjector | EncoderProjector | VadHead | Proj | Ctx
    | DecoderLayers

  datatype KernelWord =
    | Ctc | PromptKernel | Prompt | Mlp | Vad | SpkKernels | BgSpkKernels | SpkKernel | BgSpkKernel

  datatype ParameterWord =
    | Weight | Bias | WeightIhL | WeightHhL | BiasIhL | BiasHhL

  /** A word of a tensor name, by where it occurs. */
  datatype Token =
    | M(moduleWord: ModuleWord)
    | A(attentionWord: AttentionWord)
    | B(blockWord: BlockWord)
    | G(ggufWord: GgufWord)
    | H(headWord: HeadWord)
    | K(kernelWord: KernelWord)
    | P(parameterWord: ParameterWord)

  function SpellModuleWord(w: ModuleWord): string {
    match w
    case Encoder => "encoder"
    case Subsampling => "subsampling"
    case Layers => "layers"
    case Linear => "linear"
    case PreEncode => "pre_encode"
    case Conv => "conv"
    case Out => "out"
    case Decoder => "decoder"
    case Prediction => "prediction"
    case Joint => "joint"
    case Pred => "pred"
    case Enc => "enc"
    case Head => "head"
    case JointNet => "joint_net"
    case Blocks => "blocks"
  }

  function SpellAttentionWord(w: AttentionWord): string {
    match w
    case SelfAttn => "self_attn"
    case QProj => "q_proj"
    case KProj => "k_proj"
    case VProj => "v_proj"
    case OProj => "o_proj"
    case RelativeKProj => "relative_k_proj"
    case LinearQ => "linear_q"
    case LinearK => "linear_k"
    case LinearV => "linear_v"
    case LinearOut => "linear_out"
    case LinearPos => "linear_pos"
    case BiasU => "bias_u"
    case BiasV => "bias_v"
    case PosBiasU => "pos_bias_u"
    case PosBiasV => "pos_bias_v"
  }

  function SpellBlockWord(w: BlockWord): string {
    match w
    case Norm => "norm"
    case BatchNorm => "batch_norm"
    case FeedForward1 => "feed_forward1"
    case FeedForward2 => "feed_forward2"
    case Linear1 => "linear1"
    case Linear2 => "linear2"
    case NormFeedForward1 => "norm_feed_forward1"
    case NormFeedForward2 => "norm_feed_forward2"
    case NormSelfAtt => "norm_self_att"
    case NormConv => "norm_conv"
    case NormOut => "norm_out"
    case PointwiseConv1 => "pointwise_conv1"
    case PointwiseConv2 => "pointwise_conv2"
    case DepthwiseConv => "depthwise_conv"
  }

  function SpellGgufWord(w: GgufWord): string {
    match w
    case NormFf1 => "norm_ff1"
    case NormFf2 => "norm_ff2"
    case Ff1 => "ff1"
    case Ff2 => "ff2"
    case NormAttn => "norm_attn"
    case Attn => "attn"
    case Pointwise1 => "pointwise1"
    case Pointwise2 => "pointwise2"
    case Depthwise => "depthwise"
    case Bn => "bn"
    case RunningMean => "running_mean"
    case RunningVar => "running_var"
    case Wx => "Wx"
    case Wh => "Wh"
  }

  function SpellHeadWord(w: HeadWord): string {
    match w
    case Embedding => "embedding"
    case Embed => "embed"
    case Lstm => "lstm"
    case DecRnn => "dec_rnn"
    case DecoderProjector => "decoder_projector"
    case EncoderProjector => "encoder_projector"
    case VadHead => "vad_head"
    case Proj => "proj"
    case Ctx => "ctx"
    case DecoderLayers => "decoder_layers"
  }

  function SpellKernelWord(w: KernelWord): string {
    match w
    case Ctc => "ctc"
    case PromptKernel => "prompt_kernel"
    case Prompt => "prompt"
    case Mlp => "mlp"
    case Vad => "vad"
    case SpkKernels => "spk_kernels"
    case BgSpkKernels => "bg_spk_kernels"
    case SpkKernel => "spk_kernel"
    case BgSpkKernel => "bg_spk_kernel"
  }

  function SpellParameterWord(w: ParameterWord): string {
    match w
    case Weight => "weight"
    case Bias => "bias"
    case WeightIhL => "weight_ih_l"
    case WeightHhL => "weight_hh_l"
    case BiasIhL => "bias_ih_l"
    case BiasHhL => "bias_hh_l"
  }

  function Spell(t: Token): string {
    match t
    case M(w) => SpellModuleWord(w)
    case A(w) => SpellAttentionWord(w)
    case B(w) => SpellBlockWord(w)
    case G(w) => SpellGgufWord(w)
    case H(w) => SpellHeadWord(w)
    case K(w) => SpellKernelWord(w)
    case P(w) => SpellParameterWord(w)
  }

  /** Reads a word back from its length and a few of its characters. */
  function Read(s: string): Token {
    match |s|
    case 2 =>
      if s[1] == 'h' then G(Wh) else if s[1] == 'n' then G(Bn) else G(Wx)
    case 3 =>
      if s[2] == '1' then G(Ff1) else if s[2] == '2' then G(Ff2) else if s[2] == 'd' then K(Vad) else
      if s[2] == 'p' then K(Mlp) else if s[2] == 't' then M(Out) else if s[2] == 'x' then H(Ctx) else
      (if s[0] == 'c' then K(Ctc) else M(Enc))
    case 4 =>
      if s[0] == 'a' then G(Attn) else if s[0] == 'b' then P(Bias) else if s[0] == 'c' then M(Conv) else
      if s[0] == 'h' then M(Head) else if s[0] == 'l' then H(Lstm) else if s[0] == 'n' then B(Norm) else
      (if s[2] == 'e' then M(Pred) else H(Proj))
    case 5 =>
      if s[0] == 'e' then H(Embed) else M(Joint)
    case 6 =>
      if s[0] == 'k' then A(KProj) else if s[0] == 'o' then A(OProj) else if s[0] == 'p' then K(Prompt) else
      if s[0] == 'q' then A(QProj) else if s[0] == 'v' then A(VProj) else if s[0] == 'w' then P(Weight) else
      if s[0] == 'l' then (if s[1] == 'a' then M(Layers) else M(Linear)) else
      (if s[5] == 's' then M(Blocks) else if s[5] == 'u' then A(BiasU) else A(BiasV))
    case 7 =>
      if s[6] == '1' then B(Linear1) else if s[6] == '2' then B(Linear2) else
      if s[6] == 'n' then H(DecRnn) else (if s[0] == 'd' then M(Decoder) else M(Encoder))
    case 8 =>
      if s[7] == '1' then G(NormFf1) else if s[7] == '2' then G(NormFf2) else
      if s[7] == 'd' then H(VadHead) else if s[7] == 'k' then A(LinearK) else
      if s[7] == 'q' then A(LinearQ) else if s[7] == 't' then B(NormOut) else A(LinearV)
    case 9 =>
      if s[5] == '_' then M(JointNet) else if s[5] == 'c' then B(NormConv) else
      if s[5] == 'd' then H(Embedding) else if s[5] == 'h' then P(BiasHhL) else
      if s[5] == 'i' then P(BiasIhL) else if s[5] == 'w' then G(Depthwise) else
      (if s[0] == 'n' then G(NormAttn) else A(SelfAttn))
    case 10 =>
      if s[9] == '1' then G(Pointwise1) else if s[9] == '2' then G(Pointwise2) else
      if s[9] == 'e' then M(PreEncode) else if s[9] == 'l' then K(SpkKernel) else
      if s[9] == 'm' then B(BatchNorm) else if s[9] == 'n' then M(Prediction) else
      if s[9] == 's' then A(LinearPos) else if s[9] == 't' then A(LinearOut) else
      if s[9] == 'u' then A(PosBiasU) else A(PosBiasV)
    case 11 =>
      if s[7] == '_' then G(RunningVar) else if s[7] == 'h' then P(WeightHhL) else
      if s[7] == 'i' then P(WeightIhL) else if s[7] == 'l' then M(Subsampling) else K(SpkKernels)
    case 12 =>
      G(RunningMean)
    case 13 =>
      if s[0] == 'b' then K(BgSpkKernel) else if s[0] == 'n' then B(NormSelfAtt) else
      if s[0] == 'p' then K(PromptKernel) else (if s[12] == '1' then B(FeedForward1) else B(FeedForward2))
    case 14 =>
      if s[2] == '_' then K(BgSpkKernels) else if s[2] == 'c' then H(DecoderLayers) else B(DepthwiseConv)
    case 15 =>
      if s[14] == '1' then B(PointwiseConv1) else if s[14] == '2' then B(PointwiseConv2) else
      A(RelativeKProj)
    case 17 =>
      if s[0] == 'd' then H(DecoderProjector) else H(EncoderProjector)
    case 18 =>
      if s[17] == '1' then B(NormFeedForward1) else B(NormFeedForward2)
    case _ => M(Encoder)
  }

  lemma ReadModuleWord(w: ModuleWord)
    ensures Read(SpellModuleWord(w)) == M(w)
  {
  }

  lemma ModuleWordIsPlain(w: ModuleWord)
    ensures IsPlain(SpellModuleWord(w))
  {
  }

  lemma ReadAttentionWord(w: AttentionWord)
    ensures Read(SpellAttentionWord(w)) == A(w)
  {
  }

  predicate IsEarlyAttentionWord(w: AttentionWord) {
    w.SelfAttn? || w.QProj? || w.KProj? || w.VProj? ||
    w.OProj? || w.RelativeKProj? || w.LinearQ? || w.LinearK?
  }

  lemma EarlyAttentionWordIsPlain(w: AttentionWord)
    requires IsEarlyAttentionWord(w)
    ensures IsPlain(SpellAttentionWord(w))
  {
  }

  lemma LateAttentionWordIsPlain(w: AttentionWord)
    requires !IsEarlyAttentionWord(w)
    ensures IsPlain(SpellAttentionWord(w))
  {
  }

  lemma AttentionWordIsPlain(w: AttentionWord)
    ensures IsPlain(SpellAttentionWord(w))
  {
    if IsEarlyAttentionWord(w) {
      EarlyAttentionWordIsPlain(w);
    } else {
      LateAttentionWordIsPlain(w);
    }
  }

  lemma ReadBlockWord(w: BlockWord)
    ensures Read(SpellBlockWord(w)) == B(w)
  {
  }

  predicate IsEarlyBlockWord(w: BlockWord) {
    w.Norm? || w.BatchNorm? || w.FeedForward1? || w.FeedForward2? ||
    w.Linear1? || w.Linear2? || w.NormFeedForward1?
  }

  lemma EarlyBlockWordIsPlain(w: BlockWord)
    requires IsEarlyBlockWord(w)
    ensures IsPlain(SpellBlockWord(w))
  {
  }

  lemma LateBlockWordIsPlain(w: BlockWord)
    requires !IsEarlyBlockWord(w)
    ensures IsPlain(SpellBlockWord(w))
  {
  }

  lemma BlockWordIsPlain(w: BlockWord)
    ensures IsPlain(SpellBlockWord(w))
  {
    if IsEarlyBlockWord(w) {
      EarlyBlockWordIsPlain(w);
    } else {
      LateBlockWordIsPlain(w);
    }
  }

  lemma ReadGgufWord(w: GgufWord)
    ensures Read(SpellGgufWord(w)) == G(w)
  {
  }

  lemma GgufWordIsPlain(w: GgufWord)
    ensures IsPlain(SpellGgufWord(w))
  {
  }

  lemma ReadHeadWord(w: HeadWord)
    ensures Read(SpellHeadWord(w)) == H(w)
  {
  }

  predicate IsEarlyHeadWord(w: HeadWord) {
    w.Embedding? || w.Embed? || w.Lstm? || w.DecRnn? ||
    w.DecoderProjector?
  }

  lemma EarlyHeadWordIsPlain(w: HeadWord)
    requires IsEarlyHeadWord(w)
    ensures IsPlain(SpellHeadWord(w))
  {
  }

  lemma LateHeadWordIsPlain(w: HeadWord)
    requires !IsEarlyHeadWord(w)
    ensures IsPlain(SpellHeadWord(w))
  {
  }

  lemma HeadWordIsPlain(w: HeadWord)
    ensures IsPlain(SpellHeadWord(w))
  {
    if IsEarlyHeadWord(w) {
      EarlyHeadWordIsPlain(w);
    } else {
      LateHeadWordIsPlain(w);
    }
  }

  lemma ReadKernelWord(w: KernelWord)
    ensures Read(SpellKernelWord(w)) == K(w)
  {
  }

  lemma KernelWordIsPlain(w: KernelWord)
    ensures IsPlain(SpellKernelWord(w))
  {
  }

  lemma ReadParameterWord(w: ParameterWord)
    ensures Read(SpellParameterWord(w)) == P(w)
  {
  }

  lemma ParameterWordIsPlain(w: ParameterWord)
    ensures IsPlain(SpellParameterWord(w))
  {
  }

  lemma ReadSpell(t: Token)
    ensures Read(Spell(t)) == t && IsPlain(Spell(t))
  {
    match t
    case M(w) =>
      ReadModuleWord(w);
      ModuleWordIsPlain(w);
    case A(w) =>
      ReadAttentionWord(w);
      AttentionWordIsPlain(w);
    case B(w) =>
      ReadBlockWord(w);
      BlockWordIsPlain(w);
    case G(w) =>
      ReadGgufWord(w);
      GgufWordIsPlain(w);
    case H(w) =>
      ReadHeadWord(w);
      HeadWordIsPlain(w);
    case K(w) =>
      ReadKernelWord(w);
      KernelWordIsPlain(w);
    case P(w) =>
      ReadParameterWord(w);
      ParameterWordIsPlain(w);
  }

  lemma ModuleWordStartsNoIndexed(w: ModuleWord)
    ensures StartsNoIndexed(SpellModuleWord(w))
  {
  }

  lemma AttentionWordStartsNoIndexed(w: AttentionWord)
    ensures StartsNoIndexed(SpellAttentionWord(w))
  {
  }

  lemma BlockWordStartsNoIndexed(w: BlockWord)
    ensures StartsNoIndexed(SpellBlockWord(w))
  {
  }

  lemma GgufWordStartsNoIndexed(w: GgufWord)
    ensures StartsNoIndexed(SpellGgufWord(w))
  {
  }

  lemma HeadWordStartsNoIndexed(w: HeadWord)
    ensures StartsNoIndexed(SpellHeadWord(w))
  {
  }

  lemma KernelWordStartsNoIndexed(w: KernelWord)
    ensures StartsNoIndexed(SpellKernelWord(w))
  {
  }

  /** Words that carry an index inside their component, as in weight_ih_l0. */
  predicate IsIndexed(t: Token) {
    t.P? && !t.parameterWord.Weight? && !t.parameterWord.Bias?
  }

  predicate StartsNoIndexed(s: string) {
    |s| < 9 || (s[0] != 'w' && (s[0] != 'b' || s[1] != 'i'))
  }

  lemma IndexedShape(w: ParameterWord)
    ensures var s := SpellParameterWord(w);
            if w.Weight? || w.Bias? then |s| < 9
            else |s| >= 9 && (s[0] == 'w' || (s[0] == 'b' && s[1] == 'i')) &&
                 s[if s[0] == 'w' then 7 else 5] == (if w.WeightIhL? || w.BiasIhL? then 'i' else 'h') &&
                 (s[0] == 'w' <==> w.WeightIhL? || w.WeightHhL?)
  {
  }

  /** No word continues an indexed word. */
  lemma IndexedIsNoPrefix(x: Token, t: Token)
    requires IsIndexed(x) && Spell(x) <= Spell(t)
    ensures x == t
  {
    IndexedShape(x.parameterWord);
    match t
    case M(w) => ModuleWordStartsNoIndexed(w);
    case A(w) => AttentionWordStartsNoIndexed(w);
    case B(w) => BlockWordStartsNoIndexed(w);
    case G(w) => GgufWordStartsNoIndexed(w);
    case H(w) => HeadWordStartsNoIndexed(w);
    case K(w) => KernelWordStartsNoIndexed(w);
    case P(w) => IndexedShape(w);
  }

  /** A way to write words, with the function that reads them back. */
  datatype Spelling = Spelling(show: Token -> string, read: string -> Token)

  ghost predicate Readable(text: Spelling) {
    forall t {:trigger text.show(t)} :: text.read(text.show(t)) == t
  }

  /** What the name transformations need to know about a spelling. */
  ghost predicate Legible(text: Spelling) {
    && Readable(text)
    && (forall t {:trigger text.show(t)} :: IsPlain(text.show(t)))
    && (forall x, t :: IsIndexed(x) && text.show(x) <= text.show(t) ==> x == t)
  }

  const PARAKEET := Spelling(Spell, Read)

  lemma ParakeetIsLegible()
    ensures Legible(PARAKEET)
  {
    forall t ensures IsPlain(Spell(t)) && Read(Spell(t)) == t {
      ReadSpell(t);
    }
    forall x, t | IsIndexed(x) && Spell(x) <= Spell(t) ensures x == t {
      IndexedIsNoPrefix(x, t);
    }
  }
}
