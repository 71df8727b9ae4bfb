/** Which Parakeet tensors a configuration emits, in order: no name twice, and as many
    as the closed form says. */
module EmissionPlan {
  import opened DottedNames
  import opened Sequences
  import opened ParakeetTables

  datatype Head = CtcHead | Transducer(predictorLayers: nat)

  datatype Config = Config(
    layers: nat, batchNorm: bool, useBias: bool, head: Head,
    vad: bool, prompt: bool, speakerLayers: seq<nat>, background: bool)

  // ----- The plan of a configuration -----

  function Range(lo: nat, hi: nat): seq<nat>
    requires lo <= hi
  {
    seq(hi - lo, i requires 0 <= i < hi - lo => lo + i)
  }

  ghost predicate Increasing(ks: seq<nat>, bound: nat) {
    (forall i, j :: 0 <= i < j < |ks| ==> ks[i] < ks[j]) && forall i :: 0 <= i < |ks| ==> ks[i] < bound
  }

  function Pick(g: Group, ks: seq<nat>): seq<Move>
    requires forall i :: 0 <= i < |ks| ==> ks[i] < RowCount(g)
  {
    seq(|ks|, i requires 0 <= i < |ks| => Row(g, ks[i]))
  }

  /** The rows emitted of a table: of a block, statistics and biases as configured. */
  function RowsOf(c: Config, g: Group): (ks: seq<nat>)
    ensures Increasing(ks, RowCount(g)) && ks != [] && ks[0] == 0
  {
    if g.Layer? then
      Range(0, BLOCK_ROWS) + (if c.batchNorm then Range(BLOCK_ROWS, RUNNING_ROWS) else [])
      + (if c.useBias then Range(RUNNING_ROWS, ALL_ROWS) else [])
    else Range(0, RowCount(g))
  }

  function Moves(c: Config, g: Group): seq<Move> {
    Pick(g, RowsOf(c, g))
  }

  function Plan(c: Config, gs: seq<Group>): seq<Move> {
    if gs == [] then [] else Plan(c, gs[..|gs| - 1]) + Moves(c, gs[|gs| - 1])
  }

  function EncoderLayers(n: nat): seq<Group> {
    seq(n, i requires 0 <= i < n => Layer(i))
  }

  function LstmLayers(n: nat): seq<Group> {
    seq(n, i requires 0 <= i < n => PredictorLstm(i))
  }

  function HeadGroups(h: Head): seq<Group> {
    match h
    case CtcHead => [CtcTable]
    case Transducer(n) => [PredictorEmbedding] + LstmLayers(n) + [JointTable]
  }

  function Speakers(c: Config, n: nat): seq<Group>
    requires n <= |c.speakerLayers|
  {
    if n == 0 then []
    else
      var one := Speakers(c, n - 1) + [Speaker(c.speakerLayers[n - 1])];
      if c.background then one + [Background(c.speakerLayers[n - 1])] else one
  }

  function Optional(g: Group, present: bool): seq<Group> {
    if present then [g] else []
  }

  function Trunk(c: Config): seq<Group> {
    [Stem] + EncoderLayers(c.layers) + HeadGroups(c.head)
    + Optional(VadTable, c.vad) + Optional(PromptTable, c.prompt)
  }

  function Groups(c: Config): seq<Group> {
    Trunk(c) + Speakers(c, |c.speakerLayers|)
  }

  /** The closed form the converter checks its counter against. */
  function Expected(c: Config): nat {
    12
    + c.layers * (BLOCK_ROWS + (if c.useBias then 11 else 0) + (if c.batchNorm then 2 else 0))
    + (match c.head case CtcHead => 2 case Transducer(n) => 1 + n * 3 + 6)
    + (if c.prompt then 4 else 0)
    + |c.speakerLayers| * (4 + (if c.background then 4 else 0))
    + (if c.vad then 6 else 0)
  }

  // ----- Names are told apart -----

  function NamesOn(side: Side): Move -> seq<Name> {
    (m: Move) => Names(side, m)
  }

  function AllNames(side: Side, moves: seq<Move>): seq<Name> {
    FlatMap(NamesOn(side), moves)
  }

  lemma AllNamesAppend(side: Side, a: seq<Move>, b: seq<Move>)
    ensures AllNames(side, a + b) == AllNames(side, a) + AllNames(side, b)
  {
    FlatMapAppend(NamesOn(side), a, b);
  }

  lemma {:induction false} NameOfSomeMove(side: Side, moves: seq<Move>, n: Name)
    ensures n in AllNames(side, moves) <==> exists i :: 0 <= i < |moves| && n in Names(side, moves[i])
  {
    if moves != [] {
      var front := moves[..|moves| - 1];
      NameOfSomeMove(side, front, n);
      assert forall i :: 0 <= i < |front| ==> front[i] == moves[i];
    }
  }

  lemma {:induction false} PickedNamesDistinct(side: Side, g: Group, ks: seq<nat>)
    requires Increasing(ks, RowCount(g))
    ensures Distinct(AllNames(side, Pick(g, ks)))
  {
    if ks != [] {
      var front, k := ks[..|ks| - 1], ks[|ks| - 1];
      PickedNamesDistinct(side, g, front);
      assert Pick(g, ks)[..|ks| - 1] == Pick(g, front);
      forall n | n in AllNames(side, Pick(g, front)) ensures n !in Names(side, Row(g, k)) {
        NameOfSomeMove(side, Pick(g, front), n);
        var i :| 0 <= i < |front| && n in Names(side, Pick(g, front)[i]);
        RowNamesDiffer(side, g, front[i], k);
      }
      DistinctConcat(AllNames(side, Pick(g, front)), Names(side, Row(g, k)));
    }
  }

  lemma MovesTellGroup(side: Side, c: Config, g: Group, n: Name)
    requires n in AllNames(side, Moves(c, g))
    ensures GroupOf(side, n) == g
  {
    NameOfSomeMove(side, Moves(c, g), n);
    var i :| 0 <= i < |Moves(c, g)| && n in Names(side, Moves(c, g)[i]);
    NameTellsGroup(side, g, RowsOf(c, g)[i], n);
  }

  function FirstName(side: Side, g: Group): Name {
    Names(side, Row(g, 0))[0]
  }

  lemma MovesHaveFirstName(side: Side, c: Config, g: Group)
    ensures FirstName(side, g) in AllNames(side, Moves(c, g))
  {
    NameOfSomeMove(side, Moves(c, g), FirstName(side, g));
    assert FirstName(side, g) in Names(side, Moves(c, g)[0]);
  }

  lemma PlanOfLast(side: Side, c: Config, front: seq<Group>, last: Group)
    ensures AllNames(side, Plan(c, front + [last])) == AllNames(side, Plan(c, front)) + AllNames(side, Moves(c, last))
  {
    assert (front + [last])[..|front|] == front;
    AllNamesAppend(side, Plan(c, front), Moves(c, last));
  }

  lemma {:induction false} PlanTellsGroup(side: Side, c: Config, gs: seq<Group>, n: Name)
    requires n in AllNames(side, Plan(c, gs))
    ensures GroupOf(side, n) in gs
  {
    var front, last := gs[..|gs| - 1], gs[|gs| - 1];
    assert front + [last] == gs;
    PlanOfLast(side, c, front, last);
    if n in AllNames(side, Plan(c, front)) {
      PlanTellsGroup(side, c, front, n);
    } else {
      MovesTellGroup(side, c, last, n);
    }
  }

  lemma {:induction false} PlanHasFirstName(side: Side, c: Config, gs: seq<Group>, g: Group)
    requires g in gs
    ensures FirstName(side, g) in AllNames(side, Plan(c, gs))
  {
    var front, last := gs[..|gs| - 1], gs[|gs| - 1];
    assert front + [last] == gs;
    PlanOfLast(side, c, front, last);
    if g == last {
      MovesHaveFirstName(side, c, g);
    } else {
      PlanHasFirstName(side, c, front, g);
    }
  }

  lemma LastGroupIsNew(side: Side, c: Config, front: seq<Group>, last: Group)
    ensures Disjoint(AllNames(side, Plan(c, front)), AllNames(side, Moves(c, last))) <==> last !in front
  {
    var a, b := AllNames(side, Plan(c, front)), AllNames(side, Moves(c, last));
    if last in front {
      PlanHasFirstName(side, c, front, last);
      MovesHaveFirstName(side, c, last);
      assert FirstName(side, last) in a;
    } else {
      forall n | n in a ensures n !in b {
        PlanTellsGroup(side, c, front, n);
        if n in b {
          MovesTellGroup(side, c, last, n);
        }
      }
    }
  }

  /** Names repeat exactly when a table does. */
  lemma {:induction false} PlanNamesDistinct(side: Side, c: Config, gs: seq<Group>)
    ensures Distinct(AllNames(side, Plan(c, gs))) <==> Distinct(gs)
  {
    if gs != [] {
      var front, last := gs[..|gs| - 1], gs[|gs| - 1];
      assert front + [last] == gs;
      PlanOfLast(side, c, front, last);
      PlanNamesDistinct(side, c, front);
      PickedNamesDistinct(side, last, RowsOf(c, last));
      LastGroupIsNew(side, c, front, last);
      DistinctSnoc(front, last);
      DistinctConcat(AllNames(side, Plan(c, front)), AllNames(side, Moves(c, last)));
    }
  }

  // ----- Tables are told apart -----

  lemma {:induction false} SpeakerGroups(c: Config, n: nat, g: Group)
    requires n <= |c.speakerLayers|
    ensures g in Speakers(c, n) <==>
            (g.Speaker? || (g.Background? && c.background)) && g.index in c.speakerLayers[..n]
  {
    if n > 0 {
      SpeakerGroups(c, n - 1, g);
      assert c.speakerLayers[..n] == c.speakerLayers[..n - 1] + [c.speakerLayers[n - 1]];
    }
  }

  lemma {:induction false} SpeakersDistinct(c: Config, n: nat)
    requires n <= |c.speakerLayers|
    ensures Distinct(Speakers(c, n)) <==> Distinct(c.speakerLayers[..n])
  {
    if n > 0 {
      var l := c.speakerLayers[n - 1];
      SpeakersDistinct(c, n - 1);
      SpeakerGroups(c, n - 1, Speaker(l));
      SpeakerGroups(c, n - 1, Background(l));
      DistinctSnoc(c.speakerLayers[..n - 1], l);
      assert c.speakerLayers[..n] == c.speakerLayers[..n - 1] + [l];
      DistinctSnoc(Speakers(c, n - 1), Speaker(l));
      DistinctSnoc(Speakers(c, n - 1) + [Speaker(l)], Background(l));
    }
  }

  lemma TrunkDistinct(c: Config)
    ensures Distinct(Trunk(c)) && forall g :: g in Trunk(c) ==> !g.Speaker? && !g.Background?
  {
    var core := [Stem] + EncoderLayers(c.layers) + HeadGroups(c.head);
    CoreDistinct(c);
    DistinctConcat(core, Optional(VadTable, c.vad));
    DistinctConcat(core + Optional(VadTable, c.vad), Optional(PromptTable, c.prompt));
  }

  lemma CoreDistinct(c: Config)
    ensures var core := [Stem] + EncoderLayers(c.layers) + HeadGroups(c.head);
            Distinct(core) && forall g :: g in core ==> !g.Speaker? && !g.Background? && !g.VadTable? && !g.PromptTable?
  {
    HeadDistinct(c.head);
    DistinctConcat([Stem], EncoderLayers(c.layers));
    DistinctConcat([Stem] + EncoderLayers(c.layers), HeadGroups(c.head));
  }

  lemma HeadDistinct(h: Head)
    ensures Distinct(HeadGroups(h))
    ensures forall g :: g in HeadGroups(h) ==> g.CtcTable? || g.PredictorEmbedding? || g.PredictorLstm? || g.JointTable?
  {
    if h.Transducer? {
      DistinctConcat([PredictorEmbedding], LstmLayers(h.predictorLayers));
      DistinctConcat([PredictorEmbedding] + LstmLayers(h.predictorLayers), [JointTable]);
    }
  }

  /** Names repeat exactly when the list of speaker-kernel layers does. */
  lemma NamesDistinctIff(side: Side, c: Config)
    ensures Distinct(AllNames(side, Plan(c, Groups(c)))) <==> Distinct(c.speakerLayers)
  {
    PlanNamesDistinct(side, c, Groups(c));
    TrunkDistinct(c);
    SpeakersDistinct(c, |c.speakerLayers|);
    assert c.speakerLayers[..|c.speakerLayers|] == c.speakerLayers;
    forall g | g in Trunk(c) ensures g !in Speakers(c, |c.speakerLayers|) {
      SpeakerGroups(c, |c.speakerLayers|, g);
    }
    DistinctConcat(Trunk(c), Speakers(c, |c.speakerLayers|));
  }

  // ----- Counts -----

  /** How many names a table contributes on a side: only the bias of an LSTM layer
      is made of two checkpoint tensors. */
  function Size(side: Side, c: Config, g: Group): nat {
    if g.Layer? then BLOCK_ROWS + (if c.useBias then 11 else 0) + (if c.batchNorm then 2 else 0)
    else RowCount(g) + (if side.From? && g.PredictorLstm? then 1 else 0)
  }

  function Total(side: Side, c: Config, gs: seq<Group>): nat {
    if gs == [] then 0 else Total(side, c, gs[..|gs| - 1]) + Size(side, c, gs[|gs| - 1])
  }

  predicate OneNameEach(side: Side, moves: seq<Move>) {
    side.To? || forall i :: 0 <= i < |moves| ==> moves[i].Copy?
  }

  lemma {:induction false} OneNameEachCount(side: Side, moves: seq<Move>)
    requires OneNameEach(side, moves)
    ensures |AllNames(side, moves)| == |moves|
  {
    if moves != [] {
      OneNameEachCount(side, moves[..|moves| - 1]);
    }
  }

  lemma LstmReadsFour(c: Config, g: Group)
    requires g.PredictorLstm?
    ensures |AllNames(From, Moves(c, g))| == 4
  {
    var front := Pick(g, [0, 1]);
    OneNameEachCount(From, front);
    AllNamesAppend(From, front, [Row(g, 2)]);
    assert Moves(c, g) == front + [Row(g, 2)];
    assert [Row(g, 2)][..0] == [];
  }

  lemma SizeOfMoves(side: Side, c: Config, g: Group)
    ensures |AllNames(side, Moves(c, g))| == Size(side, c, g)
    ensures side.To? ==> |Moves(c, g)| == Size(side, c, g)
  {
    if side.From? && g.PredictorLstm? {
      LstmReadsFour(c, g);
    } else {
      OneNameEachCount(side, Moves(c, g));
    }
  }

  lemma {:induction false} PlanSize(side: Side, c: Config, gs: seq<Group>)
    ensures |AllNames(side, Plan(c, gs))| == Total(side, c, gs)
    ensures |Plan(c, gs)| == Total(To, c, gs)
  {
    if gs != [] {
      var front, last := gs[..|gs| - 1], gs[|gs| - 1];
      assert front + [last] == gs;
      PlanSize(side, c, front);
      PlanOfLast(side, c, front, last);
      SizeOfMoves(side, c, last);
      SizeOfMoves(To, c, last);
    }
  }

  lemma {:induction false} TotalAppend(side: Side, c: Config, a: seq<Group>, b: seq<Group>)
    ensures Total(side, c, a + b) == Total(side, c, a) + Total(side, c, b)
  {
    if b == [] {
      assert a + b == a;
    } else {
      TotalAppend(side, c, a, b[..|b| - 1]);
      assert (a + b)[..|a + b| - 1] == a + b[..|b| - 1];
    }
  }

  lemma {:induction false} TotalOfLayers(side: Side, c: Config, n: nat)
    ensures Total(side, c, EncoderLayers(n)) == n * Size(side, c, Layer(0))
  {
    if n > 0 {
      TotalOfLayers(side, c, n - 1);
      assert EncoderLayers(n)[..n - 1] == EncoderLayers(n - 1);
    }
  }

  function LstmNames(side: Side): nat {
    if side.From? then 4 else 3
  }

  lemma {:induction false} TotalOfLstmLayers(side: Side, c: Config, n: nat)
    ensures Total(side, c, LstmLayers(n)) == n * LstmNames(side)
  {
    if n > 0 {
      TotalOfLstmLayers(side, c, n - 1);
      assert LstmLayers(n)[..n - 1] == LstmLayers(n - 1);
    }
  }

  lemma TotalOfOne(side: Side, c: Config, g: Group)
    ensures Total(side, c, [g]) == Size(side, c, g)
  {
    assert [g][..0] == [];
  }

  lemma {:induction false} TotalOfSpeakers(side: Side, c: Config, n: nat)
    requires n <= |c.speakerLayers|
    ensures Total(side, c, Speakers(c, n)) == n * (4 + (if c.background then 4 else 0))
  {
    if n > 0 {
      var l := c.speakerLayers[n - 1];
      TotalOfSpeakers(side, c, n - 1);
      TotalOfOne(side, c, Speaker(l));
      TotalOfOne(side, c, Background(l));
      TotalAppend(side, c, Speakers(c, n - 1), [Speaker(l)]);
      TotalAppend(side, c, Speakers(c, n - 1) + [Speaker(l)], [Background(l)]);
    }
  }

  lemma TotalOfHead(side: Side, c: Config)
    ensures Total(side, c, HeadGroups(c.head)) ==
            match c.head case CtcHead => 2 case Transducer(n) => 1 + n * LstmNames(side) + 6
  {
    TotalOfOne(side, c, CtcTable);
    if c.head.Transducer? {
      var n := c.head.predictorLayers;
      TotalOfOne(side, c, PredictorEmbedding);
      TotalOfOne(side, c, JointTable);
      TotalOfLstmLayers(side, c, n);
      TotalAppend(side, c, [PredictorEmbedding], LstmLayers(n));
      TotalAppend(side, c, [PredictorEmbedding] + LstmLayers(n), [JointTable]);
    }
  }

  lemma TotalOfTrunk(side: Side, c: Config)
    ensures Total(side, c, Trunk(c)) ==
            12 + Total(side, c, EncoderLayers(c.layers)) + Total(side, c, HeadGroups(c.head))
            + (if c.vad then 6 else 0) + (if c.prompt then 4 else 0)
  {
    var v, p := Optional(VadTable, c.vad), Optional(PromptTable, c.prompt);
    TotalOfOne(side, c, Stem);
    TotalOfOne(side, c, VadTable);
    TotalOfOne(side, c, PromptTable);
    TotalAppend(side, c, [Stem], EncoderLayers(c.layers));
    TotalAppend(side, c, [Stem] + EncoderLayers(c.layers), HeadGroups(c.head));
    TotalAppend(side, c, [Stem] + EncoderLayers(c.layers) + HeadGroups(c.head), v);
    TotalAppend(side, c, [Stem] + EncoderLayers(c.layers) + HeadGroups(c.head) + v, p);
  }

  function PredictorLayers(c: Config): nat {
    match c.head case CtcHead => 0 case Transducer(n) => n
  }

  /** Whatever the configuration, the loops emit as many tensors as the closed form
      says, and read one more for every LSTM layer. */
  lemma PlanHasExpectedSize(side: Side, c: Config)
    ensures |Plan(c, Groups(c))| == Expected(c)
    ensures |AllNames(side, Plan(c, Groups(c)))| == Expected(c) + (if side.From? then PredictorLayers(c) else 0)
  {
    PlanSize(side, c, Groups(c));
    PlanTotal(side, c);
    PlanTotal(To, c);
  }

  lemma PlanTotal(side: Side, c: Config)
    ensures Total(side, c, Groups(c)) == Expected(c) + (if side.From? then PredictorLayers(c) else 0)
  {
    TotalAppend(side, c, Trunk(c), Speakers(c, |c.speakerLayers|));
    TotalOfTrunk(side, c);
    TotalOfLayers(side, c, c.layers);
    TotalOfHead(side, c);
    TotalOfSpeakers(side, c, |c.speakerLayers|);
  }

  // ----- What is emitted, and in which order -----

  lemma {:induction false} RowIsPlanned(c: Config, gs: seq<Group>, g: Group, k: nat)
    requires g in gs && k in RowsOf(c, g)
    ensures k < RowCount(g) && Row(g, k) in Plan(c, gs)
  {
    var front, last := gs[..|gs| - 1], gs[|gs| - 1];
    assert gs == front + [last];
    if g == last {
      var i :| 0 <= i < |RowsOf(c, g)| && RowsOf(c, g)[i] == k;
      assert Moves(c, last)[i] == Row(g, k);
    } else {
      RowIsPlanned(c, front, g, k);
    }
  }

  lemma {:induction false} PlannedIsRow(c: Config, gs: seq<Group>, m: Move) returns (g: Group, k: nat)
    requires m in Plan(c, gs)
    ensures g in gs && k in RowsOf(c, g) && k < RowCount(g) && m == Row(g, k)
  {
    var front, last := gs[..|gs| - 1], gs[|gs| - 1];
    assert gs == front + [last];
    if m in Plan(c, front) {
      g, k := PlannedIsRow(c, front, m);
    } else {
      var i :| 0 <= i < |Moves(c, last)| && Moves(c, last)[i] == m;
      g, k := last, RowsOf(c, last)[i];
    }
  }

  /** The tables that a configuration calls for. */
  predicate Wanted(c: Config, g: Group) {
    match g
    case Stem => true
    case Layer(i) => i < c.layers
    case CtcTable => c.head.CtcHead?
    case PredictorEmbedding => c.head.Transducer?
    case PredictorLstm(i) => c.head.Transducer? && i < c.head.predictorLayers
    case JointTable => c.head.Transducer?
    case VadTable => c.vad
    case PromptTable => c.prompt
    case Speaker(i) => i in c.speakerLayers
    case Background(i) => c.background && i in c.speakerLayers
  }

  /** And the rows of each: only those of a block depend on the configuration. */
  predicate RowWanted(c: Config, g: Group, k: nat) {
    k < RowCount(g) && (g.Layer? && k >= BLOCK_ROWS ==> if k < RUNNING_ROWS then c.batchNorm else c.useBias)
  }

  lemma RowsAreWanted(c: Config, g: Group, k: nat)
    ensures k in RowsOf(c, g) <==> RowWanted(c, g, k)
  {
    RangeHolds(0, RowCount(g), k);
    RangeHolds(0, BLOCK_ROWS, k);
    RangeHolds(BLOCK_ROWS, RUNNING_ROWS, k);
    RangeHolds(RUNNING_ROWS, ALL_ROWS, k);
  }

  lemma RangeHolds(lo: nat, hi: nat, k: nat)
    requires lo <= hi
    ensures k in Range(lo, hi) <==> lo <= k < hi
  {
    if lo <= k < hi {
      assert Range(lo, hi)[k - lo] == k;
    }
  }

  lemma GroupsAreWanted(c: Config, g: Group)
    ensures g in Groups(c) <==> Wanted(c, g)
  {
    SpeakerGroups(c, |c.speakerLayers|, g);
    assert c.speakerLayers[..|c.speakerLayers|] == c.speakerLayers;
    HeadIsWanted(c, g);
    if g.Layer? && g.index < c.layers {
      assert EncoderLayers(c.layers)[g.index] == g;
    }
  }

  lemma HeadIsWanted(c: Config, g: Group)
    ensures g in HeadGroups(c.head) <==>
            (g.CtcTable? || g.PredictorEmbedding? || g.PredictorLstm? || g.JointTable?) && Wanted(c, g)
  {
    if c.head.Transducer? && g.PredictorLstm? && g.index < c.head.predictorLayers {
      assert LstmLayers(c.head.predictorLayers)[g.index] == g;
    }
  }

  /** Exactly which rows a configuration emits. */
  lemma PlanIs(c: Config, m: Move)
    ensures m in Plan(c, Groups(c)) <==> exists g, k: nat :: Wanted(c, g) && RowWanted(c, g, k) && m == Row(g, k)
  {
    if m in Plan(c, Groups(c)) {
      var g, k := PlannedIsRow(c, Groups(c), m);
      GroupsAreWanted(c, g);
      RowsAreWanted(c, g, k);
    }
    if g, k: nat :| Wanted(c, g) && RowWanted(c, g, k) && m == Row(g, k) {
      GroupsAreWanted(c, g);
      RowsAreWanted(c, g, k);
      RowIsPlanned(c, Groups(c), g, k);
    }
  }

  /** The section of the file that a table belongs to. */
  function Section(g: Group): nat {
    match g
    case Stem => 0
    case Layer(_) => 1
    case CtcTable => 2
    case PredictorEmbedding => 2
    case PredictorLstm(_) => 3
    case JointTable => 4
    case VadTable => 5
    case PromptTable => 6
    case Speaker(_) => 7
    case Background(_) => 7
  }

  predicate Before(a: Group, b: Group) {
    Section(a) < Section(b) || Section(a) == Section(b) == 7 ||
    (a.Layer? && b.Layer? && a.index < b.index) || (a.PredictorLstm? && b.PredictorLstm? && a.index < b.index)
  }

  ghost predicate InOrder(gs: seq<Group>) {
    forall i, j :: 0 <= i < j < |gs| ==> Before(gs[i], gs[j])
  }

  /** All of a lies before section s, all of b in or behind it. */
  lemma InOrderConcat(a: seq<Group>, b: seq<Group>, s: nat)
    requires InOrder(a) && InOrder(b)
    requires (forall i :: 0 <= i < |a| ==> Section(a[i]) < s) && forall i :: 0 <= i < |b| ==> s <= Section(b[i])
    ensures InOrder(a + b)
  {
  }

  /** Sections follow each other, and layers within theirs. */
  lemma GroupsInOrder(c: Config)
    ensures InOrder(Groups(c))
  {
    var vad, prompt := Optional(VadTable, c.vad), Optional(PromptTable, c.prompt);
    var speakers := Speakers(c, |c.speakerLayers|);
    forall i | 0 <= i < |speakers| ensures Section(speakers[i]) == 7 {
      SpeakerGroups(c, |c.speakerLayers|, speakers[i]);
    }
    HeadInOrder(c.head);
    InOrderConcat([Stem], EncoderLayers(c.layers), 1);
    InOrderConcat([Stem] + EncoderLayers(c.layers), HeadGroups(c.head), 2);
    InOrderConcat([Stem] + EncoderLayers(c.layers) + HeadGroups(c.head), vad, 5);
    InOrderConcat([Stem] + EncoderLayers(c.layers) + HeadGroups(c.head) + vad, prompt, 6);
    InOrderConcat(Trunk(c), speakers, 7);
  }

  lemma HeadInOrder(h: Head)
    ensures InOrder(HeadGroups(h)) && forall i :: 0 <= i < |HeadGroups(h)| ==> 2 <= Section(HeadGroups(h)[i]) < 5
  {
    if h.Transducer? {
      InOrderConcat([PredictorEmbedding], LstmLayers(h.predictorLayers), 3);
      InOrderConcat([PredictorEmbedding] + LstmLayers(h.predictorLayers), [JointTable], 4);
    }
  }

  /** The kernels of each listed layer in list order, background behind speaker. */
  lemma {:induction false} KernelsInOrder(c: Config, n: nat, i: nat)
    requires i < n <= |c.speakerLayers|
    ensures var ks, l := Speakers(c, n), c.speakerLayers[i];
            if c.background then |ks| == 2 * n && ks[2 * i] == Speaker(l) && ks[2 * i + 1] == Background(l)
            else |ks| == n && ks[i] == Speaker(l)
  {
    if n > 1 {
      KernelsInOrder(c, n - 1, if i < n - 1 then i else 0);
    }
  }
}
