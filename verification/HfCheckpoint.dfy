/** From a ParakeetForTDT checkpoint to the GGUF file: the rename delivers every tensor
    that the emission of such a model reads, each under the name it reads it by. */
module HfCheckpoint {
  import opened Options
  import opened Vocabulary
  import opened DottedNames
  import opened Rename
  import opened HfToNemo
  import opened ParakeetTables
  import opened EmissionPlan
  import opened Emission

  // ----- Matching names part by part -----

  function After(n: Name): Option<Name> {
    if n.Dot? then Some(n.rest) else None
  }

  function ListOf(text: Spelling, n: Option<Name>): List<string> {
    if n.None? then Nil else Components(text, n.value)
  }

  // What is left of a name behind the parts of another.
  function Strip(front: Name, n: Option<Name>): Option<Option<Name>> {
    if n.None? || n.value.part != front.part then None
    else if front.Last? then Some(After(n.value))
    else Strip(front.rest, After(n.value))
  }

  predicate Becomes(alts: Alternatives, x: Token, y: Token) {
    if alts.from == x then alts.to == y else alts.Or? && Becomes(alts.more, x, y)
  }

  /** The rule turns the first name into the second; no strings involved. */
  predicate Fits(p: Pattern, a: Option<Name>, b: Option<Name>) {
    match p
    case End => a.None? && b.None?
    case Rest => a == b && a.Some?
    case Number(next) =>
      a.Some? && b.Some? && a.value.part.N? && b.value.part == a.value.part &&
      Fits(next, After(a.value), After(b.value))
    case Literal(w, out, next) =>
      a.Some? && a.value.part == W(w) && Strip(out, b).Some? && Fits(next, After(a.value), Strip(out, b).value)
    case OneOf(alts, next) =>
      a.Some? && b.Some? && a.value.part.W? && b.value.part.W? &&
      Becomes(alts, a.value.part.token, b.value.part.token) && Fits(next, After(a.value), After(b.value))
  }

  lemma {:induction false} StripAppends(text: Spelling, front: Name, n: Option<Name>)
    requires Strip(front, n).Some?
    ensures ListOf(text, n) == Append(Components(text, front), ListOf(text, Strip(front, n).value))
  {
    if front.Dot? {
      StripAppends(text, front.rest, After(n.value));
    }
  }

  lemma {:induction false} ChoiceBecomes(text: Spelling, alts: Alternatives, x: Token, y: Token)
    requires Readable(text) && Becomes(alts, x, y)
    ensures Choose(text, alts, text.show(x)) == Some(y)
  {
    if alts.from != x {
      assert text.read(text.show(x)) == x && text.read(text.show(alts.from)) == alts.from;
      ChoiceBecomes(text, alts.more, x, y);
    }
  }

  lemma {:induction false} FitsMatches(text: Spelling, p: Pattern, a: Option<Name>, b: Option<Name>)
    requires Legible(text) && Fits(p, a, b)
    ensures Matches(text, p, ListOf(text, a)) && Rewrite(text, p, ListOf(text, a)) == ListOf(text, b)
  {
    match p
    case End =>
    case Rest => ShowShape(text, a.value.part);
    case Number(next) => FitsMatches(text, next, After(a.value), After(b.value));
    case Literal(w, out, next) =>
      FitsMatches(text, next, After(a.value), Strip(out, b).value);
      StripAppends(text, out, b);
    case OneOf(alts, next) =>
      FitsMatches(text, next, After(a.value), After(b.value));
      ChoiceBecomes(text, alts, a.value.part.token, b.value.part.token);
  }

  lemma RenderedIsOneLine(text: Spelling, n: Name)
    requires Legible(text)
    ensures Body(Render(text, n)) == Render(text, n) && '\n' !in Render(text, n)
    ensures Split(Render(text, n)) == Components(text, n)
  {
    RenderIsJoin(text, n);
    ComponentsOneLine(text, n);
    OneLine(Components(text, n));
    SplitOfJoin(Components(text, n));
  }

  lemma MatchIsFirst(text: Spelling, k: nat, cs: List<string>)
    requires Readable(text) && k < RULE_COUNT && Matches(text, RuleAt(k), cs)
    ensures FirstMatch(text, 0, cs) == k
  {
    NameTellsRule(text, k, cs);
    var r := FirstMatch(text, 0, cs);
    assert r <= k;
    NameTellsRule(text, r, cs);
  }

  lemma RenamedByRule(text: Spelling, k: nat, key: string)
    requires k < RULE_COUNT && Body(key) == key && '\n' !in key && FirstMatch(text, 0, Split(key)) == k
    ensures Matches(text, RuleAt(k), Split(key))
    ensures Renamed(text, key) == Some(Join(Rewrite(text, RuleAt(k), Split(key))))
  {
    var out := Join(Rewrite(text, RuleAt(k), Split(key)));
    assert key[|key|..] == "" && out + "" == out;
  }

  /** A rule that fits renames the one name to the other. */
  lemma FitsRenames(text: Spelling, k: nat, a: Name, b: Name)
    requires Legible(text) && k < RULE_COUNT && Fits(RuleAt(k), Some(a), Some(b))
    ensures Renamed(text, Render(text, a)) == Some(Render(text, b))
  {
    RenderedIsOneLine(text, a);
    FitsMatches(text, RuleAt(k), Some(a), Some(b));
    MatchIsFirst(text, k, Components(text, a));
    RenamedByRule(text, k, Render(text, a));
    RenderIsJoin(text, b);
  }

  // ----- What the checkpoint calls the tensors the emission reads -----

  function WithPart(n: Name, p: Part): Name {
    match n case Last(_) => Last(p) case Dot(_, rest) => Dot(p, rest)
  }

  function HfAttention(n: Name): Name {
    match n.part
    case W(A(LinearQ)) => WithPart(n, W(A(QProj)))
    case W(A(LinearK)) => WithPart(n, W(A(KProj)))
    case W(A(LinearV)) => WithPart(n, W(A(VProj)))
    case W(A(LinearOut)) => WithPart(n, W(A(OProj)))
    case W(A(LinearPos)) => WithPart(n, W(A(RelativeKProj)))
    case W(A(PosBiasU)) => WithPart(n, W(A(BiasU)))
    case W(A(PosBiasV)) => WithPart(n, W(A(BiasV)))
    case _ => n
  }

  function HfBlock(n: Name): Name {
    if n.Dot? && n.part == W(A(SelfAttn)) then Dot(n.part, HfAttention(n.rest))
    else if n.Dot? && n.part == W(M(Conv)) && n.rest.Dot? && n.rest.part == W(B(BatchNorm)) then
      Dot(n.part, WithPart(n.rest, W(B(Norm))))
    else n
  }

  /** NeMo's encoder.layers.3.self_attn.linear_q.weight is the checkpoint's
      encoder.layers.3.self_attn.q_proj.weight, and so on. */
  function HfName(n: Name): Name {
    match n
    case Dot(W(M(Encoder)), Dot(W(M(PreEncode)), Dot(W(M(Conv)), rest))) =>
      Dot(W(M(Encoder)), Dot(W(M(Subsampling)), Dot(W(M(Layers)), rest)))
    case Dot(W(M(Encoder)), Dot(W(M(PreEncode)), Dot(W(M(Out)), rest))) =>
      Dot(W(M(Encoder)), Dot(W(M(Subsampling)), Dot(W(M(Linear)), rest)))
    case Dot(W(M(Encoder)), Dot(W(M(Layers)), Dot(i, rest))) =>
      Dot(W(M(Encoder)), Dot(W(M(Layers)), Dot(i, HfBlock(rest))))
    case Dot(W(M(Decoder)), Dot(W(M(Prediction)), Dot(W(H(Embed)), rest))) =>
      Dot(W(M(Decoder)), Dot(W(H(Embedding)), rest))
    case Dot(W(M(Decoder)), Dot(W(M(Prediction)), Dot(W(H(DecRnn)), Dot(W(H(Lstm)), rest)))) =>
      Dot(W(M(Decoder)), Dot(W(H(Lstm)), rest))
    case Dot(W(M(Joint)), Dot(W(M(Enc)), rest)) => Dot(W(H(EncoderProjector)), rest)
    case Dot(W(M(Joint)), Dot(W(M(Pred)), rest)) => Dot(W(M(Decoder)), Dot(W(H(DecoderProjector)), rest))
    case Dot(W(M(Joint)), Dot(W(M(JointNet)), Dot(N(2), rest))) => Dot(W(M(Joint)), Dot(W(M(Head)), rest))
    case _ => n
  }

  // ----- The rule for every row -----

  predicate Unchanged(p: Pattern, n: Name) {
    Fits(p, Some(n), Some(n))
  }

  predicate IsParameter(t: Token) {
    t == P(Weight) || t == P(Bias)
  }

  lemma ParamsFit(u: Token)
    requires IsParameter(u)
    ensures Unchanged(Params(), Last(W(u)))
  {
  }

  lemma NormFits(t: Token, u: Token)
    requires t in {B(NormFeedForward1), B(NormFeedForward2), B(NormSelfAtt), B(NormConv), B(NormOut)} && IsParameter(u)
    ensures Unchanged(NormRule(), Two(t, u))
  {
    ParamsFit(u);
    var alts := NormRule().alternatives;
    assert Becomes(alts, t, t) by {
      assert t == alts.from || Becomes(alts.more, t, t);
    }
  }

  lemma FeedForwardFits(t: Token, v: Token, u: Token)
    requires t in {B(FeedForward1), B(FeedForward2)} && v in {B(Linear1), B(Linear2)} && IsParameter(u)
    ensures Unchanged(FeedForwardRule(), Three(t, v, u))
  {
    ParamsFit(u);
    assert Unchanged(FeedForwardRule().next, Two(v, u));
  }

  lemma ConvFits(v: Token, u: Token)
    requires v in {B(PointwiseConv1), B(PointwiseConv2), B(DepthwiseConv)} && IsParameter(u)
    ensures Unchanged(ConvRule(), Three(M(Conv), v, u))
  {
    ParamsFit(u);
    assert Unchanged(ConvRule().next, Two(v, u));
  }

  lemma AttentionFits(x: Token, y: Token)
    ensures Fits(AttentionRule(x, y), Some(Three(A(SelfAttn), x, P(Weight))), Some(Three(A(SelfAttn), y, P(Weight))))
  {
    assert Fits(AttentionRule(x, y).next, Some(Two(x, P(Weight))), Some(Two(y, P(Weight))));
  }

  lemma PositionBiasFits()
    ensures Fits(PositionBiasRule(), Some(Two(A(SelfAttn), A(BiasU))), Some(Two(A(SelfAttn), A(PosBiasU))))
    ensures Fits(PositionBiasRule(), Some(Two(A(SelfAttn), A(BiasV))), Some(Two(A(SelfAttn), A(PosBiasV))))
  {
  }

  lemma ConvNormFits(u: Token)
    ensures Fits(ConvNormRule(), Some(Three(M(Conv), B(Norm), u)), Some(Three(M(Conv), B(BatchNorm), u)))
  {
    assert Fits(ConvNormRule().next, Some(Two(B(Norm), u)), Some(Two(B(BatchNorm), u)));
  }

  /** Some block rule turns the checkpoint's name for this suffix into the suffix. */
  ghost predicate BlockDelivers(suffix: Name) {
    exists r :: 2 <= r <= 11 && Fits(BlockRule(r), Some(HfBlock(suffix)), Some(suffix))
  }

  lemma NormDelivers(t: Token, u: Token)
    requires t in {B(NormFeedForward1), B(NormFeedForward2), B(NormSelfAtt), B(NormConv), B(NormOut)} && IsParameter(u)
    ensures BlockDelivers(Two(t, u))
  {
    NormFits(t, u);
    assert Fits(BlockRule(10), Some(HfBlock(Two(t, u))), Some(Two(t, u)));
  }

  lemma FeedForwardDelivers(t: Token, v: Token, u: Token)
    requires t in {B(FeedForward1), B(FeedForward2)} && v in {B(Linear1), B(Linear2)} && IsParameter(u)
    ensures BlockDelivers(Three(t, v, u))
  {
    FeedForwardFits(t, v, u);
    assert Fits(BlockRule(9), Some(HfBlock(Three(t, v, u))), Some(Three(t, v, u)));
  }

  lemma ConvDelivers(v: Token, u: Token)
    requires v in {B(PointwiseConv1), B(PointwiseConv2), B(DepthwiseConv)} && IsParameter(u)
    ensures BlockDelivers(Three(M(Conv), v, u))
  {
    ConvFits(v, u);
    assert Fits(BlockRule(11), Some(HfBlock(Three(M(Conv), v, u))), Some(Three(M(Conv), v, u)));
  }

  lemma AttentionDelivers(r: nat, x: Token, y: Token)
    requires 2 <= r <= 6 && BlockRule(r) == AttentionRule(x, y)
    ensures BlockDelivers(Three(A(SelfAttn), y, P(Weight)))
  {
    AttentionFits(x, y);
    assert HfBlock(Three(A(SelfAttn), y, P(Weight))) == Three(A(SelfAttn), x, P(Weight));
    assert Fits(BlockRule(r), Some(HfBlock(Three(A(SelfAttn), y, P(Weight)))), Some(Three(A(SelfAttn), y, P(Weight))));
  }

  lemma PositionBiasDelivers(y: Token)
    requires y in {A(PosBiasU), A(PosBiasV)}
    ensures BlockDelivers(Two(A(SelfAttn), y))
  {
    PositionBiasFits();
    assert Fits(BlockRule(7), Some(HfBlock(Two(A(SelfAttn), y))), Some(Two(A(SelfAttn), y)));
  }

  lemma ConvNormDelivers(u: Token)
    ensures BlockDelivers(Three(M(Conv), B(BatchNorm), u))
  {
    ConvNormFits(u);
    assert Fits(BlockRule(8), Some(HfBlock(Three(M(Conv), B(BatchNorm), u))), Some(Three(M(Conv), B(BatchNorm), u)));
  }

  lemma FirstRowsNames()
    ensures BlockRow(0).0 == Two(B(NormFeedForward1), P(Weight))
    ensures BlockRow(1).0 == Two(B(NormFeedForward1), P(Bias))
    ensures BlockRow(2).0 == Three(B(FeedForward1), B(Linear1), P(Weight))
    ensures BlockRow(3).0 == Three(B(FeedForward1), B(Linear2), P(Weight))
    ensures BlockRow(4).0 == Two(B(NormSelfAtt), P(Weight))
    ensures BlockRow(5).0 == Two(B(NormSelfAtt), P(Bias))
  {
  }

  lemma FirstRowsDelivered(k: nat)
    requires k < 6
    ensures BlockDelivers(BlockRow(k).0)
  {
    FirstRowsNames();
    match k
    case 0 => NormDelivers(B(NormFeedForward1), P(Weight));
    case 1 => NormDelivers(B(NormFeedForward1), P(Bias));
    case 2 => FeedForwardDelivers(B(FeedForward1), B(Linear1), P(Weight));
    case 3 => FeedForwardDelivers(B(FeedForward1), B(Linear2), P(Weight));
    case 4 => NormDelivers(B(NormSelfAtt), P(Weight));
    case _ => NormDelivers(B(NormSelfAtt), P(Bias));
  }

  lemma AttentionRowsNames()
    ensures BlockRow(6).0 == Three(A(SelfAttn), A(LinearQ), P(Weight))
    ensures BlockRow(7).0 == Three(A(SelfAttn), A(LinearK), P(Weight))
    ensures BlockRow(8).0 == Three(A(SelfAttn), A(LinearV), P(Weight))
    ensures BlockRow(9).0 == Three(A(SelfAttn), A(LinearOut), P(Weight))
    ensures BlockRow(10).0 == Three(A(SelfAttn), A(LinearPos), P(Weight))
    ensures BlockRow(11).0 == Two(A(SelfAttn), A(PosBiasU))
    ensures BlockRow(12).0 == Two(A(SelfAttn), A(PosBiasV))
  {
  }

  lemma AttentionRowsDelivered(k: nat)
    requires 6 <= k < 13
    ensures BlockDelivers(BlockRow(k).0)
  {
    AttentionRowsNames();
    match k
    case 6 => AttentionDelivers(2, A(QProj), A(LinearQ));
    case 7 => AttentionDelivers(3, A(KProj), A(LinearK));
    case 8 => AttentionDelivers(4, A(VProj), A(LinearV));
    case 9 => AttentionDelivers(5, A(OProj), A(LinearOut));
    case 10 => AttentionDelivers(6, A(RelativeKProj), A(LinearPos));
    case 11 => PositionBiasDelivers(A(PosBiasU));
    case _ => PositionBiasDelivers(A(PosBiasV));
  }

  lemma ConvRowsNames()
    ensures BlockRow(13).0 == Two(B(NormConv), P(Weight))
    ensures BlockRow(14).0 == Two(B(NormConv), P(Bias))
    ensures BlockRow(15).0 == Three(M(Conv), B(PointwiseConv1), P(Weight))
    ensures BlockRow(16).0 == Three(M(Conv), B(DepthwiseConv), P(Weight))
    ensures BlockRow(17).0 == Three(M(Conv), B(PointwiseConv2), P(Weight))
    ensures BlockRow(18).0 == Three(M(Conv), B(BatchNorm), P(Weight))
    ensures BlockRow(19).0 == Three(M(Conv), B(BatchNorm), P(Bias))
  {
  }

  lemma ConvRowsDelivered(k: nat)
    requires 13 <= k < 20
    ensures BlockDelivers(BlockRow(k).0)
  {
    ConvRowsNames();
    match k
    case 13 => NormDelivers(B(NormConv), P(Weight));
    case 14 => NormDelivers(B(NormConv), P(Bias));
    case 15 => ConvDelivers(B(PointwiseConv1), P(Weight));
    case 16 => ConvDelivers(B(DepthwiseConv), P(Weight));
    case 17 => ConvDelivers(B(PointwiseConv2), P(Weight));
    case 18 => ConvNormDelivers(P(Weight));
    case _ => ConvNormDelivers(P(Bias));
  }

  lemma LastRowsNames()
    ensures BlockRow(20).0 == Two(B(NormFeedForward2), P(Weight))
    ensures BlockRow(21).0 == Two(B(NormFeedForward2), P(Bias))
    ensures BlockRow(22).0 == Three(B(FeedForward2), B(Linear1), P(Weight))
    ensures BlockRow(23).0 == Three(B(FeedForward2), B(Linear2), P(Weight))
    ensures BlockRow(24).0 == Two(B(NormOut), P(Weight))
    ensures BlockRow(25).0 == Two(B(NormOut), P(Bias))
    ensures BlockRow(26).0 == Three(M(Conv), B(BatchNorm), G(RunningMean))
    ensures BlockRow(27).0 == Three(M(Conv), B(BatchNorm), G(RunningVar))
  {
  }

  lemma LastRowsDelivered(k: nat)
    requires 20 <= k < RUNNING_ROWS
    ensures BlockDelivers(BlockRow(k).0)
  {
    LastRowsNames();
    match k
    case 20 => NormDelivers(B(NormFeedForward2), P(Weight));
    case 21 => NormDelivers(B(NormFeedForward2), P(Bias));
    case 22 => FeedForwardDelivers(B(FeedForward2), B(Linear1), P(Weight));
    case 23 => FeedForwardDelivers(B(FeedForward2), B(Linear2), P(Weight));
    case 24 => NormDelivers(B(NormOut), P(Weight));
    case 25 => NormDelivers(B(NormOut), P(Bias));
    case 26 => ConvNormDelivers(G(RunningMean));
    case _ => ConvNormDelivers(G(RunningVar));
  }

  lemma BiasRowsNames()
    ensures BlockRow(28).0 == Three(B(FeedForward1), B(Linear1), P(Bias))
    ensures BlockRow(29).0 == Three(B(FeedForward1), B(Linear2), P(Bias))
    ensures BlockRow(34).0 == Three(M(Conv), B(PointwiseConv1), P(Bias))
    ensures BlockRow(35).0 == Three(M(Conv), B(DepthwiseConv), P(Bias))
    ensures BlockRow(36).0 == Three(M(Conv), B(PointwiseConv2), P(Bias))
    ensures BlockRow(37).0 == Three(B(FeedForward2), B(Linear1), P(Bias))
    ensures BlockRow(38).0 == Three(B(FeedForward2), B(Linear2), P(Bias))
  {
  }

  // The rows for the biases of query, key, value and output projection.
  predicate IsAttentionBiasRow(k: nat) {
    30 <= k < 34
  }

  lemma BiasRowsDelivered(k: nat)
    requires RUNNING_ROWS <= k < ALL_ROWS && !IsAttentionBiasRow(k)
    ensures BlockDelivers(BlockRow(k).0)
  {
    BiasRowsNames();
    match k
    case 28 => FeedForwardDelivers(B(FeedForward1), B(Linear1), P(Bias));
    case 29 => FeedForwardDelivers(B(FeedForward1), B(Linear2), P(Bias));
    case 34 => ConvDelivers(B(PointwiseConv1), P(Bias));
    case 35 => ConvDelivers(B(DepthwiseConv), P(Bias));
    case 36 => ConvDelivers(B(PointwiseConv2), P(Bias));
    case 37 => FeedForwardDelivers(B(FeedForward2), B(Linear1), P(Bias));
    case _ => FeedForwardDelivers(B(FeedForward2), B(Linear2), P(Bias));
  }

  ghost predicate Delivers(n: Name) {
    exists k :: k < RULE_COUNT && 0 <= k && Fits(RuleAt(k), Some(HfName(n)), Some(n))
  }

  lemma LayerDelivers(i: nat, suffix: Name)
    requires BlockDelivers(suffix)
    ensures Delivers(Dot(W(M(Encoder)), Dot(W(M(Layers)), Dot(N(i), suffix))))
  {
    var r :| 2 <= r <= 11 && Fits(BlockRule(r), Some(HfBlock(suffix)), Some(suffix));
    var p := RuleAt(r);
    var a, b := Dot(N(i), HfBlock(suffix)), Dot(N(i), suffix);
    assert Fits(p.next.next, Some(a), Some(b));
    assert Fits(p.next, Some(Dot(W(M(Layers)), a)), Some(Dot(W(M(Layers)), b)));
    assert Fits(p, Some(Dot(W(M(Encoder)), Dot(W(M(Layers)), a))), Some(Dot(W(M(Encoder)), Dot(W(M(Layers)), b))));
  }

  lemma LayerRowsDelivered(i: nat, k: nat)
    requires k < ALL_ROWS && !IsAttentionBiasRow(k)
    ensures Delivers(LayerRow(i, k).0)
  {
    if k < 6 {
      FirstRowsDelivered(k);
    } else if k < 13 {
      AttentionRowsDelivered(k);
    } else if k < 20 {
      ConvRowsDelivered(k);
    } else if k < RUNNING_ROWS {
      LastRowsDelivered(k);
    } else {
      BiasRowsDelivered(k);
    }
    LayerDelivers(i, BlockRow(k).0);
  }

  lemma ParameterFits(k: nat)
    ensures Unchanged(Params(), Parameter(k))
  {
    ParamsFit(Parameter(k).part.token);
  }

  lemma StemRowsDelivered(k: nat)
    requires k < 12
    ensures Delivers(StemRow(k).0)
  {
    ParameterFits(k);
    var n := StemRow(k).0;
    if k < 10 {
      var p := RuleAt(0);
      assert Fits(p.next.next.next, Some(n.rest.rest.rest), Some(n.rest.rest.rest));
      assert Fits(p.next.next, Some(HfName(n).rest.rest), Some(n.rest.rest));
      assert Fits(p.next, Some(HfName(n).rest), Some(n.rest));
      assert Fits(p, Some(HfName(n)), Some(n));
    } else {
      var p := RuleAt(1);
      assert Fits(p.next.next, Some(HfName(n).rest.rest), Some(n.rest.rest));
      assert Fits(p.next, Some(HfName(n).rest), Some(n.rest));
      assert Fits(p, Some(HfName(n)), Some(n));
    }
  }

  lemma EmbeddingDelivered()
    ensures Delivers(Row(PredictorEmbedding, 0).source)
  {
    var n := Row(PredictorEmbedding, 0).source;
    var p := RuleAt(12);
    assert Fits(p.next.next, Some(Last(W(P(Weight)))), Some(Last(W(P(Weight)))));
    assert Fits(p.next, Some(HfName(n).rest), Some(n.rest));
    assert Fits(p, Some(HfName(n)), Some(n));
  }

  lemma LstmDelivered(stem: ParameterWord, i: nat)
    ensures Delivers(LstmSource(stem, i))
  {
    var n := LstmSource(stem, i);
    var p := RuleAt(13);
    assert Fits(p.next.next, Some(Last(I(P(stem), i))), Some(Last(I(P(stem), i))));
    assert Strip(Last(W(H(Lstm))), Some(n.rest.rest.rest)) == Some(Some(Last(I(P(stem), i))));
    assert Fits(p.next, Some(HfName(n).rest), Some(n.rest));
    assert Fits(p, Some(HfName(n)), Some(n));
  }

  lemma EncoderSideDelivered(n: Name, rest: Name)
    requires Unchanged(Params(), rest) && n == Dot(W(M(Joint)), Dot(W(M(Enc)), rest))
    ensures Delivers(n)
  {
    var p := RuleAt(15);
    assert Strip(p.becomes, Some(n)) == Some(Some(rest));
    assert Fits(p, Some(HfName(n)), Some(n));
  }

  lemma PredictorSideDelivered(n: Name, rest: Name)
    requires Unchanged(Params(), rest) && n == Dot(W(M(Joint)), Dot(W(M(Pred)), rest))
    ensures Delivers(n)
  {
    var p := RuleAt(14);
    assert Fits(p.next, Some(HfName(n).rest), Some(n.rest));
    assert Fits(p, Some(HfName(n)), Some(n));
  }

  lemma JointNetDelivered(n: Name, rest: Name)
    requires Unchanged(Params(), rest) && n == Dot(W(M(Joint)), Dot(W(M(JointNet)), Dot(N(2), rest)))
    ensures Delivers(n)
  {
    var p := RuleAt(16);
    assert Strip(p.next.becomes, Some(n.rest)) == Some(Some(rest));
    assert Fits(p.next, Some(HfName(n).rest), Some(n.rest));
    assert Fits(p, Some(HfName(n)), Some(n));
  }

  lemma JointRowsDelivered(k: nat)
    requires k < 6
    ensures Delivers(JointRow(k).0)
  {
    ParameterFits(k);
    if k / 2 == 0 {
      EncoderSideDelivered(JointRow(k).0, Parameter(k));
    } else if k / 2 == 1 {
      PredictorSideDelivered(JointRow(k).0, Parameter(k));
    } else {
      JointNetDelivered(JointRow(k).0, Parameter(k));
    }
  }

  lemma VadRowsDelivered(k: nat)
    requires k < 6
    ensures Delivers(VadRow(k).0)
  {
    ParameterFits(k);
    var n := VadRow(k).0;
    assert Fits(RuleAt(17), Some(HfName(n)), Some(n));
  }

  // ----- Attention biases -----

  /** The projection whose bias a row reads, and its name in the checkpoint. */
  function Projection(k: nat): (Token, Token)
    requires IsAttentionBiasRow(k)
  {
    match k
    case 30 => (A(QProj), A(LinearQ))
    case 31 => (A(KProj), A(LinearK))
    case 32 => (A(VProj), A(LinearV))
    case _ => (A(OProj), A(LinearOut))
  }

  function InLayer(text: Spelling, i: nat, cs: List<string>): List<string> {
    Cons(text.show(M(Encoder)), Cons(text.show(M(Layers)), Cons(Decimal(i), cs)))
  }

  function BiasOf(text: Spelling, projection: Token): List<string> {
    Cons(text.show(A(SelfAttn)), Cons(text.show(projection), Cons(text.show(P(Bias)), Nil)))
  }

  lemma AttentionBiasNames(k: nat)
    requires IsAttentionBiasRow(k)
    ensures BlockRow(k).0 == Three(A(SelfAttn), Projection(k).1, P(Bias))
    ensures HfBlock(BlockRow(k).0) == Three(A(SelfAttn), Projection(k).0, P(Bias))
    ensures BlockRule(k - 28) == AttentionRule(Projection(k).0, Projection(k).1)
  {
  }

  lemma AttentionBiasComponents(text: Spelling, i: nat, k: nat)
    requires IsAttentionBiasRow(k)
    ensures Components(text, LayerRow(i, k).0) == InLayer(text, i, BiasOf(text, Projection(k).1))
    ensures Components(text, HfName(LayerRow(i, k).0)) == InLayer(text, i, BiasOf(text, Projection(k).0))
  {
    AttentionBiasNames(k);
    BiasOfComponents(text, Projection(k).0);
    BiasOfComponents(text, Projection(k).1);
    LayerComponents(text, i, BlockRow(k).0);
    LayerComponents(text, i, HfBlock(BlockRow(k).0));
  }

  lemma LayerComponents(text: Spelling, i: nat, suffix: Name)
    ensures Components(text, Dot(W(M(Encoder)), Dot(W(M(Layers)), Dot(N(i), suffix)))) ==
            InLayer(text, i, Components(text, suffix))
  {
    var inner := Dot(N(i), suffix);
    assert Components(text, inner) == Cons(Decimal(i), Components(text, suffix));
    assert Components(text, Dot(W(M(Layers)), inner)) == Cons(text.show(M(Layers)), Components(text, inner));
  }

  lemma BiasOfComponents(text: Spelling, projection: Token)
    ensures Components(text, Three(A(SelfAttn), projection, P(Bias))) == BiasOf(text, projection)
  {
    var last := Last(W(P(Bias)));
    assert Components(text, Dot(W(projection), last)) == Cons(text.show(projection), Components(text, last));
  }

  // The attention rules are about weights.
  lemma AttentionIsWeight(text: Spelling, from: Token, to: Token, cs: List<string>)
    requires Matches(text, AttentionRule(from, to), cs)
    ensures cs.tail.Cons? && cs.tail.tail == Cons(text.show(P(Weight)), Nil)
    ensures Rewrite(text, AttentionRule(from, to), cs) ==
            Cons(text.show(A(SelfAttn)), Cons(text.show(to), Cons(text.show(P(Weight)), Nil)))
  {
    var p := AttentionRule(from, to);
    MatchStep(text, p, cs);
    MatchStep(text, p.next, cs.tail);
    MatchStep(text, p.next.next, cs.tail.tail);
  }

  /** No rule yields the name of an attention bias, and none matches what the
      checkpoint would call it. */
  lemma NoRuleForAttentionBias(text: Spelling, i: nat, k: nat, r: nat, cs: List<string>)
    requires Readable(text) && IsAttentionBiasRow(k) && r < RULE_COUNT && Matches(text, RuleAt(r), cs)
    ensures Rewrite(text, RuleAt(r), cs) != InLayer(text, i, BiasOf(text, Projection(k).1))
    ensures cs != InLayer(text, i, BiasOf(text, Projection(k).0))
  {
    NameTellsRule(text, r, cs);
    assert text.show(P(Weight)) != text.show(P(Bias)) by {
      assert text.read(text.show(P(Weight))) != text.read(text.show(P(Bias)));
    }
    if Rewrite(text, RuleAt(r), cs) == InLayer(text, i, BiasOf(text, Projection(k).1)) {
      TargetOfAttentionBias(text, i, k);
      AttentionBiasNames(k);
      LayerUnfolds(text, BlockRule(r), cs);
      AttentionIsWeight(text, Projection(k).0, Projection(k).1, cs.tail.tail.tail);
    }
    if cs == InLayer(text, i, BiasOf(text, Projection(k).0)) {
      SourceOfAttentionBias(text, i, k);
      AttentionBiasNames(k);
      LayerUnfolds(text, BlockRule(r), cs);
      AttentionIsWeight(text, Projection(k).0, Projection(k).1, cs.tail.tail.tail);
    }
  }

  lemma TargetOfAttentionBias(text: Spelling, i: nat, k: nat)
    requires Readable(text) && IsAttentionBiasRow(k)
    ensures TargetRule(text, InLayer(text, i, BiasOf(text, Projection(k).1))) == k - 28
  {
  }

  lemma SourceOfAttentionBias(text: Spelling, i: nat, k: nat)
    requires Readable(text) && IsAttentionBiasRow(k)
    ensures SourceRule(text, InLayer(text, i, BiasOf(text, Projection(k).0))) == k - 28
  {
  }

  lemma RenderedApart(text: Spelling, key: string, n: Name)
    requires Legible(text) && Renamed(text, key) == Some(Render(text, n))
    ensures exists r, cs :: 0 <= r < RULE_COUNT && Matches(text, RuleAt(r), cs) &&
                            Rewrite(text, RuleAt(r), cs) == Components(text, n)
  {
    var r, cs, out := ResultIsDotted(text, key);
    RenderedIsOneLine(text, n);
    RenderIsJoin(text, n);
    SameLineSameTail(Join(out), key[|Body(key)|..], Render(text, n), "", Render(text, n));
    JoinInjective(out, Components(text, n));
  }

  /** Whatever a checkpoint holds, no tensor of it ends up under the name of an attention
      bias, and one that is called like an attention bias is refused. */
  lemma AttentionBiasNeverDelivered(key: string, i: nat, k: nat)
    requires IsAttentionBiasRow(k)
    ensures Renamed(PARAKEET, key) != Some(Render(PARAKEET, LayerRow(i, k).0))
    ensures Renamed(PARAKEET, Render(PARAKEET, HfName(LayerRow(i, k).0))) == None
  {
    ParakeetIsLegible();
    NeverDelivered(PARAKEET, key, i, k);
  }

  lemma NeverDelivered(text: Spelling, key: string, i: nat, k: nat)
    requires Legible(text) && IsAttentionBiasRow(k)
    ensures Renamed(text, key) != Some(Render(text, LayerRow(i, k).0))
    ensures Renamed(text, Render(text, HfName(LayerRow(i, k).0))) == None
  {
    AttentionBiasComponents(text, i, k);
    if Renamed(text, key) == Some(Render(text, LayerRow(i, k).0)) {
      RenderedApart(text, key, LayerRow(i, k).0);
      var r, cs :| 0 <= r < RULE_COUNT && Matches(text, RuleAt(r), cs) &&
                   Rewrite(text, RuleAt(r), cs) == Components(text, LayerRow(i, k).0);
      NoRuleForAttentionBias(text, i, k, r, cs);
    }
    var name := HfName(LayerRow(i, k).0);
    RenderedIsOneLine(text, name);
    var r := FirstMatch(text, 0, Components(text, name));
    if r < RULE_COUNT {
      NoRuleForAttentionBias(text, i, k, r, Components(text, name));
    }
  }

  // ----- The whole plan -----

  /** The configurations that such a checkpoint leads to, whether or not its encoder
      carries biases. */
  predicate IsHfModel(c: Config) {
    c.head.Transducer? && !c.prompt && c.speakerLayers == []
  }

  ghost predicate IsAttentionBias(n: Name) {
    exists i, k :: IsAttentionBiasRow(k) && n == LayerRow(i, k).0
  }

  predicate HfGroup(g: Group) {
    g.Stem? || g.Layer? || g.PredictorEmbedding? || g.PredictorLstm? || g.JointTable? || g.VadTable?
  }

  lemma {:induction false} NameOfSomeRow(c: Config, gs: seq<Group>, n: Name) returns (g: Group, k: nat)
    requires n in AllNames(From, Plan(c, gs))
    ensures g in gs && k in RowsOf(c, g) && k < RowCount(g) && n in Names(From, Row(g, k))
  {
    var front, last := gs[..|gs| - 1], gs[|gs| - 1];
    assert front + [last] == gs;
    PlanOfLast(From, c, front, last);
    if n in AllNames(From, Plan(c, front)) {
      g, k := NameOfSomeRow(c, front, n);
    } else {
      NameOfSomeMove(From, Moves(c, last), n);
      var i :| 0 <= i < |Moves(c, last)| && n in Names(From, Moves(c, last)[i]);
      g, k := last, RowsOf(c, last)[i];
    }
  }

  lemma HfGroups(c: Config, g: Group)
    requires IsHfModel(c) && g in Groups(c)
    ensures HfGroup(g)
  {
    assert Speakers(c, 0) == [];
    assert g in Trunk(c);
    HeadDistinct(c.head);
    assert Optional(PromptTable, c.prompt) == [];
    assert c.head.Transducer? ==> CtcTable !in HeadGroups(c.head);
  }

  lemma RowDelivered(g: Group, k: nat, n: Name)
    requires HfGroup(g) && k < RowCount(g) && !(g.Layer? && IsAttentionBiasRow(k)) && n in Names(From, Row(g, k))
    ensures Delivers(n)
  {
    match g
    case Stem => StemRowsDelivered(k);
    case Layer(i) => LayerRowsDelivered(i, k);
    case PredictorEmbedding => EmbeddingDelivered();
    case PredictorLstm(i) =>
      LstmDelivered(WeightIhL, i);
      LstmDelivered(WeightHhL, i);
      LstmDelivered(BiasIhL, i);
      LstmDelivered(BiasHhL, i);
    case JointTable => JointRowsDelivered(k);
    case VadTable => VadRowsDelivered(k);
  }

  /** Every tensor that the emission of such a model reads is what the rename makes of a
      checkpoint tensor: query, key, value, output and position projections, biases,
      norms and statistics each land where they are read, for every layer. Only for attention
      biases there is no such tensor. */
  lemma RenameDeliversPlan(c: Config, n: Name)
    requires IsHfModel(c) && n in AllNames(From, Plan(c, Groups(c)))
    ensures Renamed(PARAKEET, Render(PARAKEET, HfName(n))) ==
            if IsAttentionBias(n) then None else Some(Render(PARAKEET, n))
  {
    if IsAttentionBias(n) {
      var i, k :| IsAttentionBiasRow(k) && n == LayerRow(i, k).0;
      AttentionBiasNeverDelivered("", i, k);
    } else {
      var g, k := NameOfSomeRow(c, Groups(c), n);
      HfGroups(c, g);
      RowDelivered(g, k, n);
      DeliveredIsRenamed(PARAKEET, n);
    }
  }

  lemma DeliveredIsRenamed(text: Spelling, n: Name)
    requires Delivers(n) && text == PARAKEET
    ensures Renamed(text, Render(text, HfName(n))) == Some(Render(text, n))
  {
    ParakeetIsLegible();
    var k :| 0 <= k < RULE_COUNT && Fits(RuleAt(k), Some(HfName(n)), Some(n));
    FitsRenames(text, k, HfName(n), n);
  }

  /** A loaded checkpoint has a tensor the emission reads exactly when the file has it
      under its own name; it never has an attention bias. */
  lemma LoadedIff(keys: seq<string>, names: seq<string>, c: Config, n: Name)
    requires NamesOf(keys, names) && |names| == |keys|
    requires IsHfModel(c) && n in AllNames(From, Plan(c, Groups(c)))
    ensures Render(PARAKEET, n) in names <==> Render(PARAKEET, HfName(n)) in keys
    ensures IsAttentionBias(n) ==> Render(PARAKEET, n) !in names
  {
    RenameDeliversPlan(c, n);
    if IsAttentionBias(n) {
      AttentionBiasNotLoaded(keys, names, n);
    } else {
      LoadedKey(keys, names, Render(PARAKEET, HfName(n)), Render(PARAKEET, n));
    }
  }

  lemma AttentionBiasNotLoaded(keys: seq<string>, names: seq<string>, n: Name)
    requires NamesOf(keys, names) && |names| == |keys| && IsAttentionBias(n)
    ensures Render(PARAKEET, n) !in names && Render(PARAKEET, HfName(n)) !in keys
  {
    var j, k :| IsAttentionBiasRow(k) && n == LayerRow(j, k).0;
    forall i | 0 <= i < |keys| ensures names[i] != Render(PARAKEET, n) && keys[i] != Render(PARAKEET, HfName(n)) {
      AttentionBiasNeverDelivered(keys[i], j, k);
      assert Renamed(PARAKEET, keys[i]) == Some(names[i]);
    }
  }

  lemma LoadedKey(keys: seq<string>, names: seq<string>, key: string, name: string)
    requires NamesOf(keys, names) && |names| == |keys| && Renamed(PARAKEET, key) == Some(name)
    ensures name in names <==> key in keys
  {
    if name in names {
      var i :| 0 <= i < |names| && names[i] == name;
      RenameIsInjective(keys[i], key);
      assert keys[i] in keys;
    }
    if key in keys {
      var i :| 0 <= i < |keys| && keys[i] == key;
      assert names[i] == name;
    }
  }

  /** What the converter makes of the biases it finds: layers without any first one are
      an index error, and layers that disagree a refusal. */
  datatype BiasUse = NoLayers | Inconsistent | Uses(bias: bool)

  // encoder.layers.<i>.feed_forward1.linear1.bias
  function FirstBias(i: nat): Name {
    LayerRow(i, RUNNING_ROWS).0
  }

  ghost function UseBias(names: set<string>, layers: nat): BiasUse {
    if layers == 0 then NoLayers
    else if forall i: nat :: i < layers ==> Render(PARAKEET, FirstBias(i)) in names then Uses(true)
    else if exists i: nat :: i < layers && Render(PARAKEET, FirstBias(i)) in names then Inconsistent
    else Uses(false)
  }

  /** The tensors the configuration calls for are all in the file. */
  ghost predicate Complete(keys: seq<string>, c: Config) {
    forall n :: n in AllNames(From, Plan(c, Groups(c))) ==> Render(PARAKEET, HfName(n)) in keys
  }

  ghost predicate NothingMissing(sd: map<string, Tensor>, c: Config) {
    forall i :: 0 <= i < |Plan(c, Groups(c))| ==> !Trouble(PARAKEET, sd, Plan(c, Groups(c))[i]).MissingTensor?
  }

  /** Converting a loaded checkpoint reports a missing tensor exactly when the file lacks
      one of the tensors the configuration calls for. */
  lemma MissingExactlyWhenAbsent(keys: seq<string>, names: seq<string>, sd: map<string, Tensor>, c: Config)
    requires NamesOf(keys, names) && |names| == |keys| && IsHfModel(c)
    requires sd.Keys == set name | name in names
    ensures NothingMissing(sd, c) <==> Complete(keys, c)
  {
    var plan := Plan(c, Groups(c));
    forall n | n in AllNames(From, plan) ensures Render(PARAKEET, n) in sd <==> Render(PARAKEET, HfName(n)) in keys {
      LoadedIff(keys, names, c, n);
    }
    NothingMissingIff(PARAKEET, sd, plan);
  }

  lemma AttentionBiasIsPlanned(c: Config)
    requires c.useBias && c.layers > 0
    ensures LayerRow(0, 30).0 in AllNames(From, Plan(c, Groups(c)))
  {
    var g := Groups(c)[1];
    assert g == Layer(0);
    assert RowsOf(c, g)[|RowsOf(c, g)| - 9] == 30;
    NameOfPlannedRow(c, Groups(c), g, 30);
  }

  /** A checkpoint whose feed-forward layers all carry biases is never converted. The
      biases turn on the emission of biases everywhere, and those of the attention
      cannot be loaded. So exactly the complete files without them get through. */
  lemma BiasedFileNeverConverts(keys: seq<string>, names: seq<string>, sd: map<string, Tensor>, c: Config)
    requires NamesOf(keys, names) && |names| == |keys| && IsHfModel(c)
    requires sd.Keys == set name | name in names
    requires UseBias(sd.Keys, c.layers) == Uses(c.useBias)
    ensures c.useBias <==> forall i: nat :: i < c.layers ==> Render(PARAKEET, FirstBias(i)) in keys
    ensures NothingMissing(sd, c) <==> Complete(keys, c) && Render(PARAKEET, FirstBias(0)) !in keys
  {
    forall i: nat | i < c.layers
      ensures Render(PARAKEET, FirstBias(i)) in sd.Keys <==> Render(PARAKEET, FirstBias(i)) in keys
    {
      FirstBiasIsKept(keys, names, i);
    }
    MissingExactlyWhenAbsent(keys, names, sd, c);
    if c.useBias {
      AttentionBiasIsPlanned(c);
      AttentionBiasNotLoaded(keys, names, LayerRow(0, 30).0);
    }
  }

  lemma FirstBiasIsKept(keys: seq<string>, names: seq<string>, i: nat)
    requires NamesOf(keys, names) && |names| == |keys|
    ensures Render(PARAKEET, FirstBias(i)) in names <==> Render(PARAKEET, FirstBias(i)) in keys
  {
    var n := FirstBias(i);
    BiasRowsNames();
    assert HfName(n) == n;
    LayerRowsDelivered(i, RUNNING_ROWS);
    DeliveredIsRenamed(PARAKEET, n);
    LoadedKey(keys, names, Render(PARAKEET, n), Render(PARAKEET, n));
  }

  lemma {:induction false} NameOfPlannedRow(c: Config, gs: seq<Group>, g: Group, k: nat)
    requires g in gs && k in RowsOf(c, g) && k < RowCount(g)
    ensures forall n :: n in Names(From, Row(g, k)) ==> n in AllNames(From, Plan(c, gs))
  {
    var front, last := gs[..|gs| - 1], gs[|gs| - 1];
    assert front + [last] == gs;
    PlanOfLast(From, c, front, last);
    if g == last {
      var i :| 0 <= i < |RowsOf(c, g)| && RowsOf(c, g)[i] == k;
      assert Moves(c, last)[i] == Row(g, k);
      forall n | n in Names(From, Row(g, k)) ensures n in AllNames(From, Moves(c, last)) {
        NameOfSomeMove(From, Moves(c, last), n);
      }
    } else {
      NameOfPlannedRow(c, front, g, k);
    }
  }

  lemma NothingMissingIff(text: Spelling, sd: map<string, Tensor>, plan: seq<Move>)
    ensures (forall n :: n in AllNames(From, plan) ==> Render(text, n) in sd) <==>
            (forall i :: 0 <= i < |plan| ==> !Trouble(text, sd, plan[i]).MissingTensor?)
  {
    if forall n :: n in AllNames(From, plan) ==> Render(text, n) in sd {
      forall i | 0 <= i < |plan| ensures !Trouble(text, sd, plan[i]).MissingTensor? {
        forall n | n in Names(From, plan[i]) ensures Render(text, n) in sd {
          NameOfSomeMove(From, plan, n);
        }
        ReadsWhatItNames(text, sd, plan[i]);
      }
    } else {
      var n :| n in AllNames(From, plan) && Render(text, n) !in sd;
      NameOfSomeMove(From, plan, n);
      var i :| 0 <= i < |plan| && n in Names(From, plan[i]);
      ReadsWhatItNames(text, sd, plan[i]);
    }
  }

  lemma ReadsWhatItNames(text: Spelling, sd: map<string, Tensor>, m: Move)
    ensures !Trouble(text, sd, m).MissingTensor? <==> forall n :: n in Names(From, m) ==> Render(text, n) in sd
  {
    assert m.Copy? ==> m.source in Names(From, m);
    assert m.Combine? ==> m.left in Names(From, m) && m.right in Names(From, m);
  }
}
