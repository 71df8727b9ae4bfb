/** The ParakeetForTDT rename: an ordered table of rules in which the first match
    wins, and the loader loop that applies it to a whole checkpoint. */
module HfToNemo {
  import opened Options
  import opened Vocabulary
  import opened DottedNames
  import opened Rename
  import opened Sequences

  function Params(): Pattern {
    OneOf(Or(P(Weight), P(Weight), Only(P(Bias), P(Bias))), End)
  }

  function Same(t: Token, next: Pattern): Pattern {
    Literal(t, Last(W(t)), next)
  }

  function Turn(t: Token, u: Token, next: Pattern): Pattern {
    Literal(t, Last(W(u)), next)
  }

  // encoder.layers.<n>.
  function Layer(next: Pattern): Pattern {
    Same(M(Encoder), Same(M(Layers), Number(next)))
  }

  function Keep(a: Token, more: Alternatives): Alternatives {
    Or(a, a, more)
  }

  function KeepLast(a: Token): Alternatives {
    Only(a, a)
  }

  function SubsamplingLayerRule(): Pattern {
    Same(M(Encoder), Turn(M(Subsampling), M(PreEncode), Turn(M(Layers), M(Conv), Number(Params()))))
  }

  function SubsamplingLinearRule(): Pattern {
    Same(M(Encoder), Turn(M(Subsampling), M(PreEncode), Turn(M(Linear), M(Out), Params())))
  }

  // The rules for a block give what follows encoder.layers.<n>.
  function AttentionRule(from: Token, to: Token): Pattern {
    Same(A(SelfAttn), Turn(from, to, Same(P(Weight), End)))
  }

  function PositionBiasRule(): Pattern {
    Same(A(SelfAttn), OneOf(Or(A(BiasU), A(PosBiasU), Only(A(BiasV), A(PosBiasV))), End))
  }

  function ConvNormRule(): Pattern {
    Same(M(Conv), Turn(B(Norm), B(BatchNorm), Rest))
  }

  function FeedForwardRule(): Pattern {
    OneOf(Keep(B(FeedForward1), KeepLast(B(FeedForward2))),
    OneOf(Keep(B(Linear1), KeepLast(B(Linear2))), Params()))
  }

  function NormRule(): Pattern {
    OneOf(Keep(B(NormFeedForward1), Keep(B(NormFeedForward2), Keep(B(NormSelfAtt),
          Keep(B(NormConv), KeepLast(B(NormOut)))))), Params())
  }

  function ConvRule(): Pattern {
    Same(M(Conv), OneOf(Keep(B(PointwiseConv1), Keep(B(PointwiseConv2), KeepLast(B(DepthwiseConv)))), Params()))
  }

  function EmbeddingRule(): Pattern {
    Same(M(Decoder), Literal(H(Embedding), Dot(W(M(Prediction)), Last(W(H(Embed)))), Same(P(Weight), End)))
  }

  function LstmRule(): Pattern {
    Same(M(Decoder), Literal(H(Lstm), Dot(W(M(Prediction)), Dot(W(H(DecRnn)), Last(W(H(Lstm))))), Rest))
  }

  function DecoderProjectorRule(): Pattern {
    Turn(M(Decoder), M(Joint), Turn(H(DecoderProjector), M(Pred), Params()))
  }

  function EncoderProjectorRule(): Pattern {
    Literal(H(EncoderProjector), Dot(W(M(Joint)), Last(W(M(Enc)))), Params())
  }

  function JointHeadRule(): Pattern {
    Same(M(Joint), Literal(M(Head), Dot(W(M(JointNet)), Last(N(2))), Params()))
  }

  function VadHeadRule(): Pattern {
    Same(H(VadHead), OneOf(Keep(H(Proj), Keep(H(Ctx), KeepLast(M(Out)))), Params()))
  }

  const RULE_COUNT: nat := 18

  /** The rules in table order. The one rule with a group of block suffixes of
      different depth appears as the three consecutive rules 9 to 11. */
  function RuleAt(k: nat): Pattern
    requires k < RULE_COUNT
  {
    if 2 <= k <= 11 then Layer(BlockRule(k))
    else
      match k
      case 0 => SubsamplingLayerRule()
      case 1 => SubsamplingLinearRule()
      case 12 => EmbeddingRule()
      case 13 => LstmRule()
      case 14 => DecoderProjectorRule()
      case 15 => EncoderProjectorRule()
      case 16 => JointHeadRule()
      case 17 => VadHeadRule()
  }

  function BlockRule(k: nat): Pattern
    requires 2 <= k <= 11
  {
    match k
    case 2 => AttentionRule(A(QProj), A(LinearQ))
    case 3 => AttentionRule(A(KProj), A(LinearK))
    case 4 => AttentionRule(A(VProj), A(LinearV))
    case 5 => AttentionRule(A(OProj), A(LinearOut))
    case 6 => AttentionRule(A(RelativeKProj), A(LinearPos))
    case 7 => PositionBiasRule()
    case 8 => ConvNormRule()
    case 9 => FeedForwardRule()
    case 10 => NormRule()
    case 11 => ConvRule()
  }

  // ----- Reading the rule off a name -----

  /** The only rule that can match a source name, told by a few components. */
  function SourceRule(text: Spelling, cs: List<string>): nat {
    match cs
    case Cons(a, Cons(b, rest)) =>
      if a == text.show(M(Decoder)) then
        if b == text.show(H(Embedding)) then 12 else if b == text.show(H(Lstm)) then 13 else 14
      else if a == text.show(H(EncoderProjector)) then 15
      else if a == text.show(M(Joint)) then 16
      else if a == text.show(H(VadHead)) then 17
      else if b == text.show(M(Subsampling)) then
        if rest.Cons? && rest.head == text.show(M(Layers)) then 0 else 1
      else if rest.Cons? then BlockSourceRule(text, rest.tail)
      else RULE_COUNT
    case _ => RULE_COUNT
  }

  function BlockSourceRule(text: Spelling, cs: List<string>): nat {
    match cs
    case Cons(c, Cons(d, _)) =>
      if c == text.show(A(SelfAttn)) then
        if d == text.show(A(QProj)) then 2 else if d == text.show(A(KProj)) then 3
        else if d == text.show(A(VProj)) then 4
        else if d == text.show(A(OProj)) then 5 else if d == text.show(A(RelativeKProj)) then 6 else 7
      else if c == text.show(M(Conv)) then (if d == text.show(B(Norm)) then 8 else 11)
      else if c == text.show(B(FeedForward1)) || c == text.show(B(FeedForward2)) then 9
      else 10
    case _ => RULE_COUNT
  }

  /** The only rule that can have produced a target name. */
  function TargetRule(text: Spelling, cs: List<string>): nat {
    match cs
    case Cons(a, Cons(b, Cons(c, rest))) =>
      if a == text.show(M(Decoder)) then (if c == text.show(H(Embed)) then 12 else 13)
      else if a == text.show(M(Joint)) then
        if b == text.show(M(Pred)) then 14 else if b == text.show(M(Enc)) then 15 else 16
      else if a == text.show(H(VadHead)) then 17
      else if b == text.show(M(PreEncode)) then (if c == text.show(M(Conv)) then 0 else 1)
      else BlockTargetRule(text, rest)
    case _ => RULE_COUNT
  }

  function BlockTargetRule(text: Spelling, cs: List<string>): nat {
    match cs
    case Cons(c, Cons(d, _)) =>
      if c == text.show(A(SelfAttn)) then
        if d == text.show(A(LinearQ)) then 2 else if d == text.show(A(LinearK)) then 3
        else if d == text.show(A(LinearV)) then 4
        else if d == text.show(A(LinearOut)) then 5 else if d == text.show(A(LinearPos)) then 6 else 7
      else if c == text.show(M(Conv)) then (if d == text.show(B(BatchNorm)) then 8 else 11)
      else if c == text.show(B(FeedForward1)) || c == text.show(B(FeedForward2)) then 9
      else 10
    case _ => RULE_COUNT
  }

  lemma LayerUnfolds(text: Spelling, next: Pattern, cs: List<string>)
    requires Matches(text, Layer(next), cs)
    ensures cs.Cons? && cs.tail.Cons? && cs.tail.tail.Cons?
    ensures cs.head == text.show(M(Encoder)) && cs.tail.head == text.show(M(Layers))
    ensures Matches(text, next, cs.tail.tail.tail)
    ensures Rewrite(text, Layer(next), cs) ==
            Cons(cs.head, Cons(cs.tail.head, Cons(cs.tail.tail.head, Rewrite(text, next, cs.tail.tail.tail))))
  {
    var p := Layer(next);
    MatchStep(text, p, cs);
    MatchStep(text, p.next, cs.tail);
    MatchStep(text, p.next.next, cs.tail.tail);
  }

  predicate IsAttention(k: nat, from: Token, to: Token) {
    2 <= k <= 6 && BlockRule(k) == AttentionRule(from, to)
  }

  lemma AttentionTells(text: Spelling, k: nat, from: Token, to: Token, cs: List<string>)
    requires Readable(text) && IsAttention(k, from, to) && Matches(text, AttentionRule(from, to), cs)
    ensures BlockSourceRule(text, cs) == k
    ensures BlockTargetRule(text, Rewrite(text, AttentionRule(from, to), cs)) == k
  {
    var p := AttentionRule(from, to);
    MatchStep(text, p, cs);
    MatchStep(text, p.next, cs.tail);
  }

  lemma PositionBiasTells(text: Spelling, cs: List<string>)
    requires Readable(text) && Matches(text, PositionBiasRule(), cs)
    ensures BlockSourceRule(text, cs) == 7
    ensures BlockTargetRule(text, Rewrite(text, PositionBiasRule(), cs)) == 7
  {
    var p := PositionBiasRule();
    MatchStep(text, p, cs);
    MatchStep(text, p.next, cs.tail);
  }

  lemma ConvNormTells(text: Spelling, cs: List<string>)
    requires Readable(text) && Matches(text, ConvNormRule(), cs)
    ensures BlockSourceRule(text, cs) == 8
    ensures BlockTargetRule(text, Rewrite(text, ConvNormRule(), cs)) == 8
  {
    var p := ConvNormRule();
    MatchStep(text, p, cs);
    MatchStep(text, p.next, cs.tail);
  }

  lemma FeedForwardTells(text: Spelling, cs: List<string>)
    requires Readable(text) && Matches(text, FeedForwardRule(), cs)
    ensures BlockSourceRule(text, cs) == 9
    ensures BlockTargetRule(text, Rewrite(text, FeedForwardRule(), cs)) == 9
  {
    var p := FeedForwardRule();
    MatchStep(text, p, cs);
    MatchStep(text, p.next, cs.tail);
  }

  lemma NormTells(text: Spelling, cs: List<string>)
    requires Readable(text) && Matches(text, NormRule(), cs)
    ensures BlockSourceRule(text, cs) == 10
    ensures BlockTargetRule(text, Rewrite(text, NormRule(), cs)) == 10
  {
    var p := NormRule();
    MatchStep(text, p, cs);
    MatchStep(text, p.next, cs.tail);
    OutsideAlternatives(text, p.alternatives, cs.head, A(SelfAttn));
    OutsideAlternatives(text, p.alternatives, cs.head, M(Conv));
    OutsideAlternatives(text, p.alternatives, cs.head, B(FeedForward1));
    OutsideAlternatives(text, p.alternatives, cs.head, B(FeedForward2));
  }

  lemma ConvTells(text: Spelling, cs: List<string>)
    requires Readable(text) && Matches(text, ConvRule(), cs)
    ensures BlockSourceRule(text, cs) == 11
    ensures BlockTargetRule(text, Rewrite(text, ConvRule(), cs)) == 11
  {
    var p := ConvRule();
    MatchStep(text, p, cs);
    MatchStep(text, p.next, cs.tail);
    OutsideAlternatives(text, p.next.alternatives, cs.tail.head, B(Norm));
    OutsideAlternatives(text, p.next.alternatives, cs.tail.head, B(BatchNorm));
  }

  lemma SubsamplingLayerTells(text: Spelling, cs: List<string>)
    requires Readable(text) && Matches(text, SubsamplingLayerRule(), cs)
    ensures SourceRule(text, cs) == 0
    ensures TargetRule(text, Rewrite(text, SubsamplingLayerRule(), cs)) == 0
  {
    var p := SubsamplingLayerRule();
    MatchStep(text, p, cs);
    MatchStep(text, p.next, cs.tail);
    MatchStep(text, p.next.next, cs.tail.tail);
    MatchStep(text, p.next.next.next, cs.tail.tail.tail);
  }

  lemma SubsamplingLinearTells(text: Spelling, cs: List<string>)
    requires Readable(text) && Matches(text, SubsamplingLinearRule(), cs)
    ensures SourceRule(text, cs) == 1
    ensures TargetRule(text, Rewrite(text, SubsamplingLinearRule(), cs)) == 1
  {
    var p := SubsamplingLinearRule();
    MatchStep(text, p, cs);
    MatchStep(text, p.next, cs.tail);
    MatchStep(text, p.next.next, cs.tail.tail);
  }

  lemma EmbeddingTells(text: Spelling, cs: List<string>)
    requires Readable(text) && Matches(text, EmbeddingRule(), cs)
    ensures SourceRule(text, cs) == 12
    ensures TargetRule(text, Rewrite(text, EmbeddingRule(), cs)) == 12
  {
    var p := EmbeddingRule();
    MatchStep(text, p, cs);
    MatchStep(text, p.next, cs.tail);
  }

  lemma LstmTells(text: Spelling, cs: List<string>)
    requires Readable(text) && Matches(text, LstmRule(), cs)
    ensures SourceRule(text, cs) == 13
    ensures TargetRule(text, Rewrite(text, LstmRule(), cs)) == 13
  {
    var p := LstmRule();
    MatchStep(text, p, cs);
    MatchStep(text, p.next, cs.tail);
  }

  lemma DecoderProjectorTells(text: Spelling, cs: List<string>)
    requires Readable(text) && Matches(text, DecoderProjectorRule(), cs)
    ensures SourceRule(text, cs) == 14
    ensures TargetRule(text, Rewrite(text, DecoderProjectorRule(), cs)) == 14
  {
    var p := DecoderProjectorRule();
    MatchStep(text, p, cs);
    MatchStep(text, p.next, cs.tail);
    MatchStep(text, p.next.next, cs.tail.tail);
  }

  lemma AppendTwo<T>(x: T, y: T, rest: List<T>)
    ensures Append(Cons(x, Cons(y, Nil)), rest) == Cons(x, Cons(y, rest))
  {
    assert Append(Cons(y, Nil), rest) == Cons(y, rest);
  }

  lemma EncoderProjectorTells(text: Spelling, cs: List<string>)
    requires Readable(text) && Matches(text, EncoderProjectorRule(), cs)
    ensures SourceRule(text, cs) == 15
    ensures TargetRule(text, Rewrite(text, EncoderProjectorRule(), cs)) == 15
  {
    var p := EncoderProjectorRule();
    MatchStep(text, p, cs);
    MatchStep(text, p.next, cs.tail);
    AppendTwo(text.show(M(Joint)), text.show(M(Enc)), Rewrite(text, p.next, cs.tail));
  }

  lemma JointHeadTells(text: Spelling, cs: List<string>)
    requires Readable(text) && Matches(text, JointHeadRule(), cs)
    ensures SourceRule(text, cs) == 16
    ensures TargetRule(text, Rewrite(text, JointHeadRule(), cs)) == 16
  {
    var p := JointHeadRule();
    MatchStep(text, p, cs);
    MatchStep(text, p.next, cs.tail);
  }

  lemma VadHeadTells(text: Spelling, cs: List<string>)
    requires Readable(text) && Matches(text, VadHeadRule(), cs)
    ensures SourceRule(text, cs) == 17
    ensures TargetRule(text, Rewrite(text, VadHeadRule(), cs)) == 17
  {
    var p := VadHeadRule();
    MatchStep(text, p, cs);
    MatchStep(text, p.next, cs.tail);
    MatchStep(text, p.next.next, cs.tail.tail);
  }

  lemma BlockTells(text: Spelling, k: nat, cs: List<string>)
    requires Readable(text) && 2 <= k <= 11 && Matches(text, BlockRule(k), cs)
    ensures BlockSourceRule(text, cs) == k
    ensures BlockTargetRule(text, Rewrite(text, BlockRule(k), cs)) == k
  {
    match k
    case 7 => PositionBiasTells(text, cs);
    case 8 => ConvNormTells(text, cs);
    case 9 => FeedForwardTells(text, cs);
    case 10 => NormTells(text, cs);
    case 11 => ConvTells(text, cs);
    case _ =>
      var p := BlockRule(k);
      AttentionTells(text, k, p.next.word, p.next.becomes.part.token, cs);
  }

  /** A name determines the only rule that can match it, and a renamed tensor the
      only rule that can have produced it. */
  lemma NameTellsRule(text: Spelling, k: nat, cs: List<string>)
    requires Readable(text) && k < RULE_COUNT && Matches(text, RuleAt(k), cs)
    ensures SourceRule(text, cs) == k
    ensures TargetRule(text, Rewrite(text, RuleAt(k), cs)) == k
  {
    match k
    case 0 => SubsamplingLayerTells(text, cs);
    case 1 => SubsamplingLinearTells(text, cs);
    case 12 => EmbeddingTells(text, cs);
    case 13 => LstmTells(text, cs);
    case 14 => DecoderProjectorTells(text, cs);
    case 15 => EncoderProjectorTells(text, cs);
    case 16 => JointHeadTells(text, cs);
    case 17 => VadHeadTells(text, cs);
    case _ =>
      LayerUnfolds(text, BlockRule(k), cs);
      BlockTells(text, k, cs.tail.tail.tail);
      LayerTells(text, BlockRule(k), cs);
  }

  lemma LayerTells(text: Spelling, next: Pattern, cs: List<string>)
    requires Readable(text) && Matches(text, Layer(next), cs)
    requires cs.Cons? && cs.tail.Cons? && cs.tail.tail.Cons? && Matches(text, next, cs.tail.tail.tail)
    ensures SourceRule(text, cs) == BlockSourceRule(text, cs.tail.tail.tail)
    ensures TargetRule(text, Rewrite(text, Layer(next), cs)) ==
            BlockTargetRule(text, Rewrite(text, next, cs.tail.tail.tail))
  {
    LayerUnfolds(text, next, cs);
  }

  lemma BlockRulesAreOneToOne(k: nat)
    requires 2 <= k <= 11
    ensures OneToOne(BlockRule(k))
  {
  }

  lemma OuterRulesAreOneToOne(k: nat)
    requires k < 2 || 11 < k < RULE_COUNT
    ensures OneToOne(RuleAt(k))
  {
  }

  lemma RulesAreOneToOne(k: nat)
    requires k < RULE_COUNT
    ensures OneToOne(RuleAt(k))
  {
    if 2 <= k <= 11 {
      BlockRulesAreOneToOne(k);
      assert OneToOne(Number(BlockRule(k)));
    } else {
      OuterRulesAreOneToOne(k);
    }
  }

  // ----- The rename -----

  function FirstMatch(text: Spelling, k: nat, cs: List<string>): (r: nat)
    requires k <= RULE_COUNT
    ensures k <= r <= RULE_COUNT
    ensures r < RULE_COUNT ==> Matches(text, RuleAt(r), cs)
    ensures forall j :: k <= j < r ==> !Matches(text, RuleAt(j), cs)
    decreases RULE_COUNT - k
  {
    if k == RULE_COUNT || Matches(text, RuleAt(k), cs) then k else FirstMatch(text, k + 1, cs)
  }

  /** None is the KeyError of an unmapped tensor name. No rule matches across a
      line feed. */
  function Renamed(text: Spelling, key: string): Option<string> {
    var body := Body(key);
    var cs := Split(body);
    var k := FirstMatch(text, 0, cs);
    if '\n' in body || k == RULE_COUNT then None
    else Some(Join(Rewrite(text, RuleAt(k), cs)) + key[|body|..])
  }

  method HfToNemoKey(key: string) returns (name: Option<string>)
    ensures name == Renamed(PARAKEET, key)
  {
    var body := Body(key);
    var cs := Split(body);
    if '\n' in body {
      return None;
    }
    for k := 0 to RULE_COUNT
      invariant FirstMatch(PARAKEET, k, cs) == FirstMatch(PARAKEET, 0, cs)
    {
      if Matches(PARAKEET, RuleAt(k), cs) {
        return Some(Join(Rewrite(PARAKEET, RuleAt(k), cs)) + key[|body|..]);
      }
    }
    name := None;
  }

  /** No source name is matched by two rules, so their order is immaterial. */
  lemma RulesAreDisjoint(key: string, j: nat, k: nat)
    requires j < RULE_COUNT && k < RULE_COUNT
    requires Matches(PARAKEET, RuleAt(j), Split(Body(key))) && Matches(PARAKEET, RuleAt(k), Split(Body(key)))
    ensures j == k
  {
    ParakeetIsLegible();
    NameTellsRule(PARAKEET, j, Split(Body(key)));
    NameTellsRule(PARAKEET, k, Split(Body(key)));
  }

  /** Component lists: equal results come from equal sources. */
  lemma SameTargetSameSource(text: Spelling, j: nat, k: nat, cs: List<string>, ds: List<string>)
    requires Legible(text) && j < RULE_COUNT && k < RULE_COUNT
    requires Matches(text, RuleAt(j), cs) && Matches(text, RuleAt(k), ds)
    requires Rewrite(text, RuleAt(j), cs) == Rewrite(text, RuleAt(k), ds)
    ensures cs == ds
  {
    NameTellsRule(text, j, cs);
    NameTellsRule(text, k, ds);
    RulesAreOneToOne(j);
    RewriteInjective(text, RuleAt(j), cs, ds);
  }

  lemma ResultIsDotted(text: Spelling, key: string) returns (k: nat, cs: List<string>, out: List<string>)
    requires Legible(text) && Renamed(text, key).Some?
    ensures k < RULE_COUNT && cs == Split(Body(key)) && Join(cs) == Body(key) && Matches(text, RuleAt(k), cs)
    ensures out == Rewrite(text, RuleAt(k), cs) && out.Cons? && AllDotless(out) && '\n' !in Join(out)
    ensures Renamed(text, key).value == Join(out) + key[|Body(key)|..]
  {
    cs := Split(Body(key));
    k := FirstMatch(text, 0, cs);
    JoinOfSplit(Body(key));
    RewriteDotless(text, RuleAt(k), cs);
    out := Rewrite(text, RuleAt(k), cs);
    OneLine(cs);
    RewriteOneLine(text, RuleAt(k), cs);
    OneLine(out);
  }

  lemma JoinedApart(text: Spelling, j: nat, k: nat, cs: List<string>, ds: List<string>)
    requires Legible(text) && j < RULE_COUNT && k < RULE_COUNT
    requires Matches(text, RuleAt(j), cs) && Matches(text, RuleAt(k), ds)
    requires var x, y := Rewrite(text, RuleAt(j), cs), Rewrite(text, RuleAt(k), ds);
             x.Cons? && y.Cons? && AllDotless(x) && AllDotless(y) && Join(x) == Join(y)
    ensures cs == ds
  {
    JoinInjective(Rewrite(text, RuleAt(j), cs), Rewrite(text, RuleAt(k), ds));
    SameTargetSameSource(text, j, k, cs, ds);
  }

  lemma RenamedApart(text: Spelling, a: string, b: string)
    requires Legible(text) && Renamed(text, a).Some? && Renamed(text, a) == Renamed(text, b)
    ensures a == b
  {
    var j, cs, x := ResultIsDotted(text, a);
    var k, ds, y := ResultIsDotted(text, b);
    SameLineSameTail(Join(x), a[|Body(a)|..], Join(y), b[|Body(b)|..], Renamed(text, a).value);
    JoinedApart(text, j, k, cs, ds);
    BodyAndTail(a);
    BodyAndTail(b);
  }

  lemma BodyAndTail(key: string)
    ensures key == Body(key) + key[|Body(key)|..]
  {
  }

  /** Two different source tensors never get the same name. */
  lemma RenameIsInjective(a: string, b: string)
    requires Renamed(PARAKEET, a).Some? && Renamed(PARAKEET, a) == Renamed(PARAKEET, b)
    ensures a == b
  {
    ParakeetIsLegible();
    RenamedApart(PARAKEET, a, b);
  }

  lemma SameLineSameTail(x: string, t: string, y: string, u: string, r: string)
    requires x + t == r == y + u && '\n' !in x && '\n' !in y
    requires (t == "" || t == "\n") && (u == "" || u == "\n")
    ensures x == y && t == u
  {
    if t == "\n" {
      assert r[|r| - 1] == '\n';
    }
    if u == "\n" {
      assert r[|r| - 1] == '\n';
    }
    assert x == r[..|r| - |t|] && y == r[..|r| - |u|];
  }

  // ----- Loading a checkpoint -----

  /** The name each key gets, in order. */
  ghost predicate NamesOf(keys: seq<string>, names: seq<string>) {
    |names| <= |keys| && forall i :: 0 <= i < |names| ==> Renamed(PARAKEET, keys[i]) == Some(names[i])
  }

  lemma NamesStayApart(keys: seq<string>, names: seq<string>)
    requires Distinct(keys) && NamesOf(keys, names)
    ensures Distinct(names)
  {
    forall i, j | 0 <= i < j < |names| ensures names[i] != names[j] {
      if names[i] == names[j] {
        RenameIsInjective(keys[i], keys[j]);
      }
    }
  }

  lemma NamesOfNext(keys: seq<string>, names: seq<string>, name: string)
    requires |names| < |keys| && NamesOf(keys, names) && Renamed(PARAKEET, keys[|names|]) == Some(name)
    ensures NamesOf(keys, names + [name])
  {
  }

  ghost predicate Holds<T>(dict: map<string, T>, names: seq<string>, tensors: seq<T>) {
    && |names| <= |tensors| && |dict| == |names|
    && dict.Keys == (set name | name in names)
    && forall i :: 0 <= i < |names| ==> names[i] in dict && dict[names[i]] == tensors[i]
  }

  lemma HoldsNext<T>(dict: map<string, T>, names: seq<string>, tensors: seq<T>, name: string)
    requires Holds(dict, names, tensors) && |names| < |tensors| && Distinct(names + [name])
    ensures Holds(dict[name := tensors[|names|]], names + [name], tensors)
  {
    DistinctSnoc(names, name);
    assert name !in dict.Keys;
  }

  /** The state dict under its NeMo names. The loop never looks for a clash, and
      there is none to find: every tensor is kept, each under its own name. */
  method LoadStateDict<T>(keys: seq<string>, tensors: seq<T>) returns (sd: Option<map<string, T>>)
    requires |tensors| == |keys| && Distinct(keys)
    ensures sd.None? <==> exists i :: 0 <= i < |keys| && Renamed(PARAKEET, keys[i]).None?
    ensures sd.Some? ==>
              exists names :: NamesOf(keys, names) && |names| == |keys| && Holds(sd.value, names, tensors)
  {
    var dict: map<string, T> := map[];
    ghost var names: seq<string> := [];
    for i := 0 to |keys|
      invariant |names| == i && NamesOf(keys, names) && Holds(dict, names, tensors)
    {
      var name := HfToNemoKey(keys[i]);
      if name.None? {
        return None;
      }
      NamesOfNext(keys, names, name.value);
      NamesStayApart(keys, names + [name.value]);
      HoldsNext(dict, names, tensors, name.value);
      names := names + [name.value];
      dict := dict[name.value := tensors[i]];
    }
    sd := Some(dict);
  }
}
