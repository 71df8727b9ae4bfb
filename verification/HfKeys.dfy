/** The checkpoint rename, written out: exactly which tensor names are known, and what
    each becomes. */
module HfKeys {
  import opened Options
  import opened Vocabulary
  import opened DottedNames
  import opened Rename
  import opened HfToNemo

  // ----- The table in plain text -----

  function Of2(a: string, b: string): List<string> {
    Cons(a, Cons(b, Nil))
  }

  function Of3(a: string, b: string, c: string): List<string> {
    Cons(a, Of2(b, c))
  }

  function Of4(a: string, b: string, c: string, d: string): List<string> {
    Cons(a, Of3(b, c, d))
  }

  // encoder.layers.<d>.<rest>
  function In(d: string, rest: List<string>): List<string> {
    Cons("encoder", Cons("layers", Cons(d, rest)))
  }

  predicate IsParam(p: string) {
    p == "weight" || p == "bias"
  }

  /** Anything that is not empty. */
  predicate IsRest(cs: List<string>) {
    cs.Cons? && cs != Cons("", Nil)
  }

  predicate IsProjection(q: string, n: string) {
    || (q == "q_proj" && n == "linear_q")
    || (q == "k_proj" && n == "linear_k")
    || (q == "v_proj" && n == "linear_v")
    || (q == "o_proj" && n == "linear_out")
    || (q == "relative_k_proj" && n == "linear_pos")
  }

  predicate IsNorm(n: string) {
    n == "norm_feed_forward1" || n == "norm_feed_forward2" || n == "norm_self_att" || n == "norm_conv" ||
    n == "norm_out"
  }

  predicate IsConv(c: string) {
    c == "pointwise_conv1" || c == "pointwise_conv2" || c == "depthwise_conv"
  }

  ghost predicate Projection(a: List<string>, b: List<string>) {
    exists q, n :: IsProjection(q, n) && a == Of3("self_attn", q, "weight") && b == Of3("self_attn", n, "weight")
  }

  predicate PositionBias(a: List<string>, b: List<string>) {
    (a == Of2("self_attn", "bias_u") && b == Of2("self_attn", "pos_bias_u")) ||
    (a == Of2("self_attn", "bias_v") && b == Of2("self_attn", "pos_bias_v"))
  }

  ghost predicate ConvNorm(a: List<string>, b: List<string>) {
    exists rest :: IsRest(rest) && a == Cons("conv", Cons("norm", rest)) && b == Cons("conv", Cons("batch_norm", rest))
  }

  ghost predicate FeedForward(a: List<string>, b: List<string>) {
    a == b && exists f, l, p ::
      (f == "feed_forward1" || f == "feed_forward2") && (l == "linear1" || l == "linear2") && IsParam(p) &&
      a == Of3(f, l, p)
  }

  ghost predicate Norms(a: List<string>, b: List<string>) {
    a == b && exists n, p :: IsNorm(n) && IsParam(p) && a == Of2(n, p)
  }

  ghost predicate Convs(a: List<string>, b: List<string>) {
    a == b && exists c, p :: IsConv(c) && IsParam(p) && a == Of3("conv", c, p)
  }

  /** What follows encoder.layers.<d>. */
  ghost predicate InBlock(a: List<string>, b: List<string>) {
    Projection(a, b) || PositionBias(a, b) || ConvNorm(a, b) || FeedForward(a, b) || Norms(a, b) || Convs(a, b)
  }

  ghost predicate Block(a: List<string>, b: List<string>) {
    exists d, x, y :: IsNumber(d) && InBlock(x, y) && a == In(d, x) && b == In(d, y)
  }

  ghost predicate Stem(a: List<string>, b: List<string>) {
    || (exists d, p :: IsNumber(d) && IsParam(p) && a == Cons("encoder", Of4("subsampling", "layers", d, p)) &&
                       b == Cons("encoder", Of4("pre_encode", "conv", d, p)))
    || (exists p :: IsParam(p) && a == Of4("encoder", "subsampling", "linear", p) &&
                    b == Of4("encoder", "pre_encode", "out", p))
  }

  ghost predicate Predictor(a: List<string>, b: List<string>) {
    || (a == Of3("decoder", "embedding", "weight") && b == Of4("decoder", "prediction", "embed", "weight"))
    || (exists rest :: IsRest(rest) && a == Cons("decoder", Cons("lstm", rest)) &&
                       b == Cons("decoder", Cons("prediction", Cons("dec_rnn", Cons("lstm", rest)))))
  }

  ghost predicate JointNetwork(a: List<string>, b: List<string>) {
    || (exists p :: IsParam(p) && a == Of3("decoder", "decoder_projector", p) && b == Of3("joint", "pred", p))
    || (exists p :: IsParam(p) && a == Of2("encoder_projector", p) && b == Of3("joint", "enc", p))
    || (exists p :: IsParam(p) && a == Of3("joint", "head", p) && b == Of4("joint", "joint_net", "2", p))
  }

  ghost predicate VadLayers(a: List<string>, b: List<string>) {
    a == b && exists w, p :: (w == "proj" || w == "ctx" || w == "out") && IsParam(p) && a == Of3("vad_head", w, p)
  }

  /** The known names and what they become. */
  ghost predicate Renames(a: List<string>, b: List<string>) {
    Stem(a, b) || Block(a, b) || Predictor(a, b) || JointNetwork(a, b) || VadLayers(a, b)
  }

  // ----- Every rule is its line of the table -----

  /** The rule matches a and makes b of it. */
  predicate Applies(p: Pattern, a: List<string>, b: List<string>) {
    Matches(PARAKEET, p, a) && b == Rewrite(PARAKEET, p, a)
  }

  // One known word in front, kept or replaced by another.
  lemma TurnApplies(t: Token, u: Token, next: Pattern, a: List<string>, b: List<string>)
    ensures Applies(Turn(t, u, next), a, b) <==>
            a.Cons? && b.Cons? && a.head == PARAKEET.show(t) && b.head == PARAKEET.show(u) &&
            Applies(next, a.tail, b.tail)
  {
    if Matches(PARAKEET, Turn(t, u, next), a) {
      MatchStep(PARAKEET, Turn(t, u, next), a);
    }
    assert Components(PARAKEET, Last(W(u))) == Cons(PARAKEET.show(u), Nil);
    assert forall rest :: Append(Cons(PARAKEET.show(u), Nil), rest) == Cons(PARAKEET.show(u), rest);
  }

  lemma NumberApplies(next: Pattern, a: List<string>, b: List<string>)
    ensures Applies(Number(next), a, b) <==>
            a.Cons? && b.Cons? && IsNumber(a.head) && b.head == a.head && Applies(next, a.tail, b.tail)
  {
  }

  lemma OneOfApplies(alts: Alternatives, next: Pattern, a: List<string>, b: List<string>)
    ensures Applies(OneOf(alts, next), a, b) <==>
            a.Cons? && b.Cons? && Choose(PARAKEET, alts, a.head).Some? &&
            b.head == PARAKEET.show(Choose(PARAKEET, alts, a.head).value) && Applies(next, a.tail, b.tail)
  {
  }

  lemma ParamsApplies(a: List<string>, b: List<string>)
    ensures Applies(Params(), a, b) <==> exists p :: IsParam(p) && a == Cons(p, Nil) == b
  {
    OneOfApplies(Params().alternatives, End, a, b);
    if Applies(Params(), a, b) {
      assert IsParam(a.head) && a == Cons(a.head, Nil) == b;
    }
    if p :| IsParam(p) && a == Cons(p, Nil) == b {
      assert Applies(End, a.tail, b.tail);
    }
  }

  lemma AttentionApplies(from: Token, to: Token, a: List<string>, b: List<string>)
    ensures Applies(AttentionRule(from, to), a, b) <==>
            a == Of3("self_attn", PARAKEET.show(from), "weight") && b == Of3("self_attn", PARAKEET.show(to), "weight")
  {
    var p := AttentionRule(from, to);
    TurnApplies(A(SelfAttn), A(SelfAttn), p.next, a, b);
    if a.Cons? && b.Cons? {
      TurnApplies(from, to, p.next.next, a.tail, b.tail);
      if a.tail.Cons? && b.tail.Cons? {
        TurnApplies(P(Weight), P(Weight), End, a.tail.tail, b.tail.tail);
      }
    }
  }

  lemma ProjectionRules(r: nat)
    requires 2 <= r <= 6
    ensures BlockRule(r).Literal? && BlockRule(r).next.Literal?
    ensures var p := BlockRule(r);
            p == AttentionRule(p.next.word, p.next.becomes.part.token) &&
            IsProjection(PARAKEET.show(p.next.word), PARAKEET.show(p.next.becomes.part.token))
  {
    match r
    case 2 =>
    case 3 =>
    case 4 =>
    case 5 =>
    case _ =>
  }

  lemma RuleOfProjection(q: string, n: string) returns (r: nat)
    requires IsProjection(q, n)
    ensures 2 <= r <= 6 && BlockRule(r).Literal? && BlockRule(r).next.Literal?
    ensures PARAKEET.show(BlockRule(r).next.word) == q && PARAKEET.show(BlockRule(r).next.becomes.part.token) == n
  {
    r := if q == "q_proj" then 2 else if q == "k_proj" then 3 else if q == "v_proj" then 4
         else if q == "o_proj" then 5 else 6;
    match r
    case 2 =>
    case 3 =>
    case 4 =>
    case 5 =>
    case _ =>
  }

  lemma AnyProjection(a: List<string>, b: List<string>)
    ensures Projection(a, b) <==> exists r :: 2 <= r <= 6 && Applies(BlockRule(r), a, b)
  {
    forall r | 2 <= r <= 6 && Applies(BlockRule(r), a, b) ensures Projection(a, b) {
      ProjectionRules(r);
      AttentionApplies(BlockRule(r).next.word, BlockRule(r).next.becomes.part.token, a, b);
    }
    if Projection(a, b) {
      var q, n :| IsProjection(q, n) && a == Of3("self_attn", q, "weight") && b == Of3("self_attn", n, "weight");
      var r := RuleOfProjection(q, n);
      ProjectionRules(r);
      AttentionApplies(BlockRule(r).next.word, BlockRule(r).next.becomes.part.token, a, b);
    }
  }

  lemma PositionBiasApplies(a: List<string>, b: List<string>)
    ensures Applies(BlockRule(7), a, b) <==> PositionBias(a, b)
  {
    var p := PositionBiasRule();
    TurnApplies(A(SelfAttn), A(SelfAttn), p.next, a, b);
    if a.Cons? && b.Cons? {
      OneOfApplies(p.next.alternatives, End, a.tail, b.tail);
      if a.tail.Cons? && b.tail.Cons? {
        BiasWords(a.tail.head);
        EndApplies(a.tail.tail, b.tail.tail);
      }
    }
  }

  lemma EndApplies(a: List<string>, b: List<string>)
    ensures Applies(End, a, b) <==> a.Nil? && b.Nil?
  {
  }

  lemma BiasWords(c: string)
    ensures var r := Choose(PARAKEET, PositionBiasRule().next.alternatives, c);
            (r.Some? <==> c == "bias_u" || c == "bias_v") &&
            (c == "bias_u" ==> r == Some(A(PosBiasU))) && (c == "bias_v" ==> r == Some(A(PosBiasV)))
  {
  }

  lemma ConvNormApplies(a: List<string>, b: List<string>)
    ensures Applies(BlockRule(8), a, b) <==> ConvNorm(a, b)
  {
    var p := ConvNormRule();
    TurnApplies(M(Conv), M(Conv), p.next, a, b);
    if a.Cons? && b.Cons? {
      TurnApplies(B(Norm), B(BatchNorm), Rest, a.tail, b.tail);
      if Applies(p, a, b) {
        assert IsRest(a.tail.tail);
      }
    }
  }

  lemma FeedForwardApplies(a: List<string>, b: List<string>)
    ensures Applies(BlockRule(9), a, b) <==> FeedForward(a, b)
  {
    var p := FeedForwardRule();
    OneOfApplies(p.alternatives, p.next, a, b);
    if a.Cons? && b.Cons? {
      OneOfApplies(p.next.alternatives, Params(), a.tail, b.tail);
      if a.tail.Cons? && b.tail.Cons? {
        ParamsApplies(a.tail.tail, b.tail.tail);
      }
    }
    if Applies(p, a, b) {
      assert a == Of3(a.head, a.tail.head, a.tail.tail.head);
    }
  }

  lemma NormApplies(a: List<string>, b: List<string>)
    ensures Applies(BlockRule(10), a, b) <==> Norms(a, b)
  {
    var p := NormRule();
    OneOfApplies(p.alternatives, Params(), a, b);
    if a.Cons? {
      NormWords(a.head);
    }
    if a.Cons? && b.Cons? {
      ParamsApplies(a.tail, b.tail);
    }
    if Applies(p, a, b) {
      assert a == Of2(a.head, a.tail.head);
    }
  }

  lemma NormWords(c: string)
    ensures var r := Choose(PARAKEET, NormRule().alternatives, c);
            (r.Some? <==> IsNorm(c)) && (r.Some? ==> PARAKEET.show(r.value) == c)
  {
    var alts := NormRule().alternatives;
    assert Choose(PARAKEET, alts.more.more, c) ==
           if c == "norm_self_att" then Some(B(NormSelfAtt)) else Choose(PARAKEET, alts.more.more.more, c);
    assert Choose(PARAKEET, alts.more.more.more, c) ==
           if c == "norm_conv" then Some(B(NormConv)) else if c == "norm_out" then Some(B(NormOut)) else None;
  }

  lemma ConvApplies(a: List<string>, b: List<string>)
    ensures Applies(BlockRule(11), a, b) <==> Convs(a, b)
  {
    var p := ConvRule();
    TurnApplies(M(Conv), M(Conv), p.next, a, b);
    if a.Cons? && b.Cons? {
      OneOfApplies(p.next.alternatives, Params(), a.tail, b.tail);
      if a.tail.Cons? && b.tail.Cons? {
        ConvWords(a.tail.head);
        ParamsApplies(a.tail.tail, b.tail.tail);
      }
    }
    if Applies(p, a, b) {
      assert a == Of3("conv", a.tail.head, a.tail.tail.head);
    }
  }

  lemma ConvWords(c: string)
    ensures var r := Choose(PARAKEET, ConvRule().next.alternatives, c);
            (r.Some? <==> IsConv(c)) && (r.Some? ==> PARAKEET.show(r.value) == c)
  {
    var alts := ConvRule().next.alternatives;
    assert Choose(PARAKEET, alts.more, c) ==
           if c == "pointwise_conv2" then Some(B(PointwiseConv2))
           else if c == "depthwise_conv" then Some(B(DepthwiseConv)) else None;
  }

  lemma AnyBlock(x: List<string>, y: List<string>)
    ensures InBlock(x, y) <==> exists r :: 2 <= r <= 11 && Applies(BlockRule(r), x, y)
  {
    AnyProjection(x, y);
    PositionBiasApplies(x, y);
    ConvNormApplies(x, y);
    FeedForwardApplies(x, y);
    NormApplies(x, y);
    ConvApplies(x, y);
    if InBlock(x, y) && !Projection(x, y) {
      assert Applies(BlockRule(7), x, y) || Applies(BlockRule(8), x, y) || Applies(BlockRule(9), x, y) ||
             Applies(BlockRule(10), x, y) || Applies(BlockRule(11), x, y);
    }
  }

  lemma LayerApplies(next: Pattern, a: List<string>, b: List<string>)
    ensures Applies(Layer(next), a, b) <==>
            exists d, x, y :: IsNumber(d) && Applies(next, x, y) && a == In(d, x) && b == In(d, y)
  {
    TurnApplies(M(Encoder), M(Encoder), Same(M(Layers), Number(next)), a, b);
    if a.Cons? && b.Cons? {
      TurnApplies(M(Layers), M(Layers), Number(next), a.tail, b.tail);
      if a.tail.Cons? && b.tail.Cons? {
        NumberApplies(next, a.tail.tail, b.tail.tail);
      }
    }
    if Applies(Layer(next), a, b) {
      var x, y := a.tail.tail.tail, b.tail.tail.tail;
      assert IsNumber(a.tail.tail.head) && Applies(next, x, y) && a == In(a.tail.tail.head, x);
    }
  }

  lemma BlockApplies(a: List<string>, b: List<string>)
    ensures Block(a, b) <==> exists r :: 2 <= r <= 11 && Applies(RuleAt(r), a, b)
  {
    if d, x, y :| IsNumber(d) && InBlock(x, y) && a == In(d, x) && b == In(d, y) {
      AnyBlock(x, y);
      var r :| 2 <= r <= 11 && Applies(BlockRule(r), x, y);
      LayerApplies(BlockRule(r), a, b);
      assert Applies(RuleAt(r), a, b);
    }
    if r :| 2 <= r <= 11 && Applies(RuleAt(r), a, b) {
      LayerApplies(BlockRule(r), a, b);
      var d, x, y :| IsNumber(d) && Applies(BlockRule(r), x, y) && a == In(d, x) && b == In(d, y);
      AnyBlock(x, y);
    }
  }

  lemma SubsamplingLayerApplies(a: List<string>, b: List<string>)
    ensures Applies(RuleAt(0), a, b) <==>
            exists d, p :: IsNumber(d) && IsParam(p) && a == Cons("encoder", Of4("subsampling", "layers", d, p)) &&
                           b == Cons("encoder", Of4("pre_encode", "conv", d, p))
  {
    var p := SubsamplingLayerRule();
    TurnApplies(M(Encoder), M(Encoder), p.next, a, b);
    if a.Cons? && b.Cons? {
      TurnApplies(M(Subsampling), M(PreEncode), p.next.next, a.tail, b.tail);
      if a.tail.Cons? && b.tail.Cons? {
        TurnApplies(M(Layers), M(Conv), p.next.next.next, a.tail.tail, b.tail.tail);
        if a.tail.tail.Cons? && b.tail.tail.Cons? {
          NumberApplies(Params(), a.tail.tail.tail, b.tail.tail.tail);
          if a.tail.tail.tail.Cons? && b.tail.tail.tail.Cons? {
            ParamsApplies(a.tail.tail.tail.tail, b.tail.tail.tail.tail);
          }
        }
      }
    }
    if Applies(p, a, b) {
      var rest := a.tail.tail.tail;
      assert IsNumber(rest.head) && IsParam(rest.tail.head);
    }
  }

  lemma SubsamplingLinearApplies(a: List<string>, b: List<string>)
    ensures Applies(RuleAt(1), a, b) <==>
            exists p :: IsParam(p) && a == Of4("encoder", "subsampling", "linear", p) &&
                        b == Of4("encoder", "pre_encode", "out", p)
  {
    var p := SubsamplingLinearRule();
    TurnApplies(M(Encoder), M(Encoder), p.next, a, b);
    if a.Cons? && b.Cons? {
      TurnApplies(M(Subsampling), M(PreEncode), p.next.next, a.tail, b.tail);
      if a.tail.Cons? && b.tail.Cons? {
        TurnApplies(M(Linear), M(Out), Params(), a.tail.tail, b.tail.tail);
        if a.tail.tail.Cons? && b.tail.tail.Cons? {
          ParamsApplies(a.tail.tail.tail, b.tail.tail.tail);
        }
      }
    }
  }

  // Words that one word is replaced by.
  function Replacing(n: Name, rest: List<string>): List<string> {
    Append(Components(PARAKEET, n), rest)
  }

  lemma LiteralApplies(t: Token, out: Name, next: Pattern, a: List<string>, b: List<string>)
    ensures Applies(Literal(t, out, next), a, b) <==>
            a.Cons? && a.head == PARAKEET.show(t) && Matches(PARAKEET, next, a.tail) &&
            b == Replacing(out, Rewrite(PARAKEET, next, a.tail))
  {
  }

  lemma EmbeddingApplies(a: List<string>, b: List<string>)
    ensures Applies(RuleAt(12), a, b) <==>
            a == Of3("decoder", "embedding", "weight") && b == Of4("decoder", "prediction", "embed", "weight")
  {
    var p := EmbeddingRule();
    TurnApplies(M(Decoder), M(Decoder), p.next, a, b);
    if a.Cons? && b.Cons? {
      LiteralApplies(H(Embedding), p.next.becomes, p.next.next, a.tail, b.tail);
      TwoWords(M(Prediction), H(Embed), Cons("weight", Nil));
      if a.tail.Cons? {
        TurnApplies(P(Weight), P(Weight), End, a.tail.tail, a.tail.tail);
      }
    }
  }

  lemma TwoWords(x: Token, y: Token, rest: List<string>)
    ensures Replacing(Dot(W(x), Last(W(y))), rest) == Cons(PARAKEET.show(x), Cons(PARAKEET.show(y), rest))
  {
    assert Components(PARAKEET, Last(W(y))) == Cons(PARAKEET.show(y), Nil);
    assert Components(PARAKEET, Dot(W(x), Last(W(y)))) == Of2(PARAKEET.show(x), PARAKEET.show(y));
    AppendTwo(PARAKEET.show(x), PARAKEET.show(y), rest);
  }

  lemma ThreeWords(x: Token, y: Token, z: Token, rest: List<string>)
    ensures Replacing(Dot(W(x), Dot(W(y), Last(W(z)))), rest) ==
            Cons(PARAKEET.show(x), Cons(PARAKEET.show(y), Cons(PARAKEET.show(z), rest)))
  {
    TwoWords(y, z, rest);
  }

  lemma LstmApplies(a: List<string>, b: List<string>)
    ensures Applies(RuleAt(13), a, b) <==>
            exists rest :: IsRest(rest) && a == Cons("decoder", Cons("lstm", rest)) &&
                           b == Cons("decoder", Cons("prediction", Cons("dec_rnn", Cons("lstm", rest))))
  {
    var p := LstmRule();
    TurnApplies(M(Decoder), M(Decoder), p.next, a, b);
    if a.Cons? && b.Cons? {
      LiteralApplies(H(Lstm), p.next.becomes, Rest, a.tail, b.tail);
      if a.tail.Cons? {
        ThreeWords(M(Prediction), H(DecRnn), H(Lstm), a.tail.tail);
      }
    }
  }

  lemma DecoderProjectorApplies(a: List<string>, b: List<string>)
    ensures Applies(RuleAt(14), a, b) <==>
            exists p :: IsParam(p) && a == Of3("decoder", "decoder_projector", p) && b == Of3("joint", "pred", p)
  {
    var p := DecoderProjectorRule();
    TurnApplies(M(Decoder), M(Joint), p.next, a, b);
    if a.Cons? && b.Cons? {
      TurnApplies(H(DecoderProjector), M(Pred), Params(), a.tail, b.tail);
      if a.tail.Cons? && b.tail.Cons? {
        ParamsApplies(a.tail.tail, b.tail.tail);
      }
    }
  }

  lemma EncoderProjectorApplies(a: List<string>, b: List<string>)
    ensures Applies(RuleAt(15), a, b) <==>
            exists p :: IsParam(p) && a == Of2("encoder_projector", p) && b == Of3("joint", "enc", p)
  {
    var q := EncoderProjectorRule();
    LiteralApplies(H(EncoderProjector), q.becomes, Params(), a, b);
    if a.Cons? {
      ParamsApplies(a.tail, a.tail);
      TwoWords(M(Joint), M(Enc), a.tail);
      if Matches(PARAKEET, Params(), a.tail) {
        ParamsApplies(a.tail, Rewrite(PARAKEET, Params(), a.tail));
      }
    }
  }

  lemma JointHeadApplies(a: List<string>, b: List<string>)
    ensures Applies(RuleAt(16), a, b) <==>
            exists p :: IsParam(p) && a == Of3("joint", "head", p) && b == Of4("joint", "joint_net", "2", p)
  {
    var q := JointHeadRule();
    TurnApplies(M(Joint), M(Joint), q.next, a, b);
    if a.Cons? && b.Cons? {
      LiteralApplies(M(Head), q.next.becomes, Params(), a.tail, b.tail);
      if a.tail.Cons? {
        JointNetWords(a.tail.tail);
        ParamsApplies(a.tail.tail, a.tail.tail);
        if Matches(PARAKEET, Params(), a.tail.tail) {
          ParamsApplies(a.tail.tail, Rewrite(PARAKEET, Params(), a.tail.tail));
        }
      }
    }
  }

  lemma JointNetWords(rest: List<string>)
    ensures Replacing(Dot(W(M(JointNet)), Last(N(2))), rest) == Cons("joint_net", Cons("2", rest))
  {
    assert Decimal(2) == "2";
    assert Components(PARAKEET, Last(N(2))) == Cons("2", Nil);
    assert Components(PARAKEET, Dot(W(M(JointNet)), Last(N(2)))) == Of2("joint_net", "2");
    AppendTwo("joint_net", "2", rest);
  }

  lemma VadHeadApplies(a: List<string>, b: List<string>)
    ensures Applies(RuleAt(17), a, b) <==> VadLayers(a, b)
  {
    var p := VadHeadRule();
    TurnApplies(H(VadHead), H(VadHead), p.next, a, b);
    if a.Cons? && b.Cons? {
      OneOfApplies(p.next.alternatives, Params(), a.tail, b.tail);
      if a.tail.Cons? && b.tail.Cons? {
        VadWords(a.tail.head);
        ParamsApplies(a.tail.tail, b.tail.tail);
      }
    }
    if Applies(p, a, b) {
      assert a == Of3("vad_head", a.tail.head, a.tail.tail.head);
    }
  }

  lemma VadWords(c: string)
    ensures var r := Choose(PARAKEET, VadHeadRule().next.alternatives, c);
            (r.Some? <==> c == "proj" || c == "ctx" || c == "out") && (r.Some? ==> PARAKEET.show(r.value) == c)
  {
    var alts := VadHeadRule().next.alternatives;
    assert Choose(PARAKEET, alts.more, c) ==
           if c == "ctx" then Some(H(Ctx)) else if c == "out" then Some(M(Out)) else None;
  }

  /** Some rule makes b of a exactly when the table says so. */
  lemma RulesAreTable(a: List<string>, b: List<string>)
    ensures Renames(a, b) <==> exists k :: 0 <= k < RULE_COUNT && Applies(RuleAt(k), a, b)
  {
    SubsamplingLayerApplies(a, b);
    SubsamplingLinearApplies(a, b);
    BlockApplies(a, b);
    EmbeddingApplies(a, b);
    LstmApplies(a, b);
    DecoderProjectorApplies(a, b);
    EncoderProjectorApplies(a, b);
    JointHeadApplies(a, b);
    VadHeadApplies(a, b);
    if Renames(a, b) && !Block(a, b) {
      assert Applies(RuleAt(0), a, b) || Applies(RuleAt(1), a, b) || Applies(RuleAt(12), a, b) ||
             Applies(RuleAt(13), a, b) || Applies(RuleAt(14), a, b) || Applies(RuleAt(15), a, b) ||
             Applies(RuleAt(16), a, b) || Applies(RuleAt(17), a, b);
    }
    if Block(a, b) {
      var k :| 2 <= k <= 11 && Applies(RuleAt(k), a, b);
    }
  }

  lemma OnlyThisRule(text: Spelling, cs: List<string>, j: nat)
    requires text == PARAKEET && j < RULE_COUNT && Matches(text, RuleAt(j), cs)
    ensures FirstMatch(text, 0, cs) == j
  {
    ParakeetIsLegible();
    var k := FirstMatch(text, 0, cs);
    NameTellsRule(text, j, cs);
    assert k <= j;
    NameTellsRule(text, k, cs);
  }

  lemma RuleGives(text: Spelling, key: string, j: nat)
    requires text == PARAKEET && '\n' !in Body(key) && j < RULE_COUNT && Matches(text, RuleAt(j), Split(Body(key)))
    ensures Renamed(text, key) == Some(Join(Rewrite(text, RuleAt(j), Split(Body(key)))) + key[|Body(key)|..])
  {
    OnlyThisRule(text, Split(Body(key)), j);
  }

  lemma RenamedByTable(key: string, name: string) returns (b: List<string>)
    requires Renamed(PARAKEET, key) == Some(name)
    ensures '\n' !in Body(key) && Renames(Split(Body(key)), b) && name == Join(b) + key[|Body(key)|..]
  {
    var cs := Split(Body(key));
    b := Rewrite(PARAKEET, RuleAt(FirstMatch(PARAKEET, 0, cs)), cs);
    assert Applies(RuleAt(FirstMatch(PARAKEET, 0, cs)), cs, b);
    RulesAreTable(cs, b);
  }

  lemma TableRenames(key: string, b: List<string>)
    requires '\n' !in Body(key) && Renames(Split(Body(key)), b)
    ensures Renamed(PARAKEET, key) == Some(Join(b) + key[|Body(key)|..])
  {
    RulesAreTable(Split(Body(key)), b);
    var j :| 0 <= j < RULE_COUNT && Applies(RuleAt(j), Split(Body(key)), b);
    RuleGives(PARAKEET, key, j);
  }

  /** A line without line feeds, and perhaps one behind it. */
  predicate IsLine(key: string, line: string, end: string) {
    key == line + end && (end == "" || end == "\n") && '\n' !in line
  }

  lemma BodyIsLine(key: string, line: string, end: string)
    ensures IsLine(key, line, end) <==> '\n' !in Body(key) && line == Body(key) && end == key[|Body(key)|..]
  {
    if IsLine(key, line, end) {
      assert end == "" && key != "" ==> key[|key| - 1] in line;
      assert end == "\n" ==> key[|key| - 1] == '\n' && key[..|key| - 1] == line;
      assert end == "" ==> key == line;
    }
    if '\n' !in Body(key) && line == Body(key) && end == key[|Body(key)|..] {
      assert key == line + end;
    }
  }

  ghost predicate IsRenamed(key: string, name: string, line: string, end: string, b: List<string>) {
    IsLine(key, line, end) && Renames(Split(line), b) && name == Join(b) + end
  }

  /** The whole rename, for every string: a name becomes another exactly when the table
      says so of the line before one final line feed, which is kept; a name with any other
      line feed is unknown. */
  lemma RenamedExactly(key: string, name: string)
    ensures Renamed(PARAKEET, key) == Some(name) <==> exists line, end, b :: IsRenamed(key, name, line, end, b)
  {
    if Renamed(PARAKEET, key) == Some(name) {
      var b := RenamedByTable(key, name);
      BodyIsLine(key, Body(key), key[|Body(key)|..]);
      assert IsRenamed(key, name, Body(key), key[|Body(key)|..], b);
    }
    if line, end, b :| IsRenamed(key, name, line, end, b) {
      BodyIsLine(key, line, end);
      TableRenames(key, b);
    }
  }
}
