/** Whole runs, seen from what the caller asked for: the policy and the agreement of the
    last begin decide what a stream commits, and a family that owns its boundaries decides
    it by its row counts. */
module StreamArguments {
  import opened Options
  import opened Utf8
  import opened StreamText
  import opened Dispatch
  import opened StreamRuns
  import opened CallEffects

  // ----- The stream runs by the arguments of its begin -----

  /** The arguments of the begin that started what the session is in, if one did. */
  function Asked(s: State, es: seq<Event>): Option<BeginArgs> {
    if es == [] then None
    else
      var t, e := Exec(s, es[..|es| - 1]), es[|es| - 1];
      if !Restarts(t, e) then Asked(s, es[..|es| - 1])
      else if e.BeginCall? then Some(e.begin)
      else None
  }

  predicate Obeys(s: State, a: BeginArgs) {
    KnownArguments(a) && s.agreement == a.agreement &&
    (s.policy.Auto? <==> a.policyRaw == 0) && (s.policy.OnFinalize? <==> a.policyRaw == 1) &&
    (s.policy.StablePrefix? <==> a.policyRaw == 2)
  }

  lemma ObeysStep(s: State, e: Event, asked: Option<BeginArgs>)
    requires Inv(s) && (!s.lifecycle.Idle? ==> asked.Some? && Obeys(s, asked.value))
    ensures var now := if !Restarts(s, e) then asked else if e.BeginCall? then Some(e.begin) else None;
            !Step(s, e).lifecycle.Idle? ==> now.Some? && Obeys(Step(s, e), now.value)
  {
    match e
    case BeginCall(a, hook) =>
      if Restarts(s, e) {
        BeginEffect(s, a, hook);
      }
    case BatchCall(pcms, a, env) =>
      if BatchRejection(s, pcms, a) == OK {
        BatchLeavesNoStream(s, pcms, a, env);
      }
    case _ =>
  }

  /** In every reachable state that is not idle, the session runs by the policy and the
      agreement of the last accepted begin. */
  lemma {:induction false} StreamObeysCaller(model: Model, es: seq<Event>)
    ensures var s, asked := Exec(Initial(model), es), Asked(Initial(model), es);
            !s.lifecycle.Idle? ==> asked.Some? && Obeys(s, asked.value)
  {
    if es != [] {
      var before := es[..|es| - 1];
      StreamObeysCaller(model, before);
      ReachableInv(model, before);
      ObeysStep(Exec(Initial(model), before), es[|es| - 1], Asked(Initial(model), before));
    }
  }

  /** What the caller asked for, of a stream in progress. */
  function Request(model: Model, es: seq<Event>): BeginArgs
    requires Exec(Initial(model), es).lifecycle.Active?
  {
    StreamObeysCaller(model, es);
    Asked(Initial(model), es).value
  }

  /** Policy 1: at no moment of a stream in progress is anything committed. */
  lemma OnFinalizeCommitsNothingEarly(model: Model, es: seq<Event>)
    requires Exec(Initial(model), es).lifecycle.Active? && Request(model, es).policyRaw == 1
    ensures Exec(Initial(model), es).committed.text == []
  {
    StreamObeysCaller(model, es);
    ReachableInv(model, es);
  }

  // 0 asks for the library's default.
  function AgreementAsked(a: BeginArgs): nat {
    if a.agreement == 0 then 3 else a.agreement
  }

  predicate LeavesPrefixToLibrary(model: Model) {
    model.NoModel? || model.prefixSource == GenericText
  }

  /** Any other policy, on a family that leaves the prefix to the library: the declared
      text, with the agreement that the caller asked for. */
  lemma CallerGetsDeclaredText(model: Model, es: seq<Event>)
    requires Exec(Initial(model), es).lifecycle.Active? && Request(model, es).policyRaw != 1
    requires LeavesPrefixToLibrary(model) && AllWellFormed(Fed(Initial(model), es))
    ensures Exec(Initial(model), es).committed.text ==
            Declared(AgreementAsked(Request(model, es)), Fed(Initial(model), es))
  {
    StreamObeysCaller(model, es);
    ReachableInv(model, es);
    CommittedIsDeclared(model, es);
  }

  /** For arbitrary bytes: nothing, or a prefix of as many consecutive hypotheses as the
      caller asked for. */
  lemma CallerGetsAgreement(model: Model, es: seq<Event>) returns (t: nat)
    requires Exec(Initial(model), es).lifecycle.Active? && Request(model, es).policyRaw != 1
    requires LeavesPrefixToLibrary(model)
    ensures var c, hs := Exec(Initial(model), es).committed.text, Fed(Initial(model), es);
            var n := AgreementAsked(Request(model, es));
            c == [] || (n <= t <= |hs| && forall i :: t - n <= i < t ==> c <= hs[i])
  {
    StreamObeysCaller(model, es);
    ReachableInv(model, es);
    t := CommittedRestsOnAgreement(model, es);
  }

  // ----- Families that own their boundaries -----

  /** What a family claims by its row counts: the text of its token rows; without any, the
      whole hypothesis once all words or all segments are counted. */
  function Claimed(slot: Snapshot, rows: Rows): Text {
    if rows.tokens > 0 then RowsText(slot.fullText, slot.tokens, rows.tokens)
    else if (rows.words > 0 && rows.words >= slot.words) || (rows.segments > 0 && rows.segments >= slot.segments)
    then slot.fullText
    else []
  }

  lemma WholeTextIsCut(full: Text)
    ensures GreatestCut(full, full, full[..FloorBoundary(full, Min(|full|, |full|))])
    ensures GreatestCut(full, [], full[..FloorBoundary(full, Min(0, |full|))])
  {
    assert full[..|full|] == full;
  }

  lemma FamilyOffers(s: State)
    requires s.slot.hasResult
    ensures var full := s.slot.fullText;
            GreatestCut(full, Claimed(s.slot, s.rows),
                        full[..FloorBoundary(full, Min(FamilyCandidate(s), |full|))])
  {
    TokenRowsOffer(s.slot.fullText, s.slot.tokens, s.rows.tokens);
    WholeTextIsCut(s.slot.fullText);
  }

  /** The most of the claim that the hypothesis begins with. */
  function CutOf(full: Text, claim: Text): (p: Text)
    ensures GreatestCut(full, claim, p)
  {
    var k := CommonLength(full, claim);
    AgreesMost(full, claim);
    assert full[..CommonPrefixBytes(full, claim)] == full[..k][..CommonPrefixBytes(full, claim)];
    CutAt(full, claim, CommonPrefixBytes(full, claim));
    full[..CommonPrefixBytes(full, claim)]
  }

  /** What a claim makes of the committed text. */
  function After(c: Text, full: Text, claim: Text): Text {
    if c < CutOf(full, claim) && IsBoundary(full, |c|) then CutOf(full, claim) else c
  }

  predicate OwnsPrefix(model: Model) {
    model.Model? && model.prefixSource != GenericText
  }

  predicate CommitsByFamily(s: State) {
    s.lifecycle.Active? && OwnsPrefix(s.model) && !s.policy.OnFinalize?
  }

  lemma GreatestCutIsUnique(full: Text, claim: Text, p: Text, q: Text)
    requires GreatestCut(full, claim, p) && GreatestCut(full, claim, q)
    ensures p == q
  {
    assert p <= q && q <= p;
  }

  /** A feed of such a family, in any reachable stream: the most of the claim that the
      hypothesis begins with becomes the committed text if it extends it at a code point
      start; otherwise, and without a result, nothing changes. */
  lemma FamilyFeedCommits(s: State, pcm: Pcm, hook: HookOutcome, u: Option<Update>)
    requires Inv(s) && CommitsByFamily(s) && Feed(s, pcm, hook, u).status == OK
    ensures Feed(s, pcm, hook, u).state.committed.text ==
            if !hook.writes.slot.hasResult then s.committed.text
            else After(s.committed.text, hook.writes.slot.fullText, Claimed(hook.writes.slot, hook.writes.rows))
  {
    var ran, full := Absorb(s, hook.writes), hook.writes.slot.fullText;
    if ran.slot.hasResult {
      FamilyOffers(ran);
      var p := full[..FloorBoundary(full, Min(FamilyCandidate(ran), |full|))];
      GreatestCutIsUnique(full, Claimed(ran.slot, ran.rows), p, CutOf(full, Claimed(ran.slot, ran.rows)));
      AppendInstallsPrefix(full, s.committed, FamilyCandidate(ran));
    }
  }

  /** In particular: token rows that the hypothesis begins with, and that extend the
      committed text at a code point start, are committed to the byte. */
  lemma FamilyFeedCommitsRows(s: State, pcm: Pcm, hook: HookOutcome, u: Option<Update>, n: nat)
    requires Inv(s) && CommitsByFamily(s) && Feed(s, pcm, hook, u).status == OK && hook.writes.slot.hasResult
    requires 0 < n == hook.writes.rows.tokens && n <= |hook.writes.slot.tokens|
    ensures var full, rows := hook.writes.slot.fullText, Concat(hook.writes.slot.tokens[..n]);
            s.committed.text < rows && rows <= full &&
            IsBoundary(full, |rows|) && IsBoundary(full, |s.committed.text|) ==>
              Feed(s, pcm, hook, u).state.committed.text == rows
  {
    FamilyFeedCommits(s, pcm, hook, u);
    var full, rows := hook.writes.slot.fullText, Concat(hook.writes.slot.tokens[..n]);
    assert hook.writes.slot.tokens[..|hook.writes.slot.tokens|] == hook.writes.slot.tokens;
    if rows <= full && IsBoundary(full, |rows|) {
      assert IsCut(full, rows, rows);
      assert rows <= CutOf(full, rows) <= rows;
    }
  }

  datatype Offer = Offer(full: Text, claim: Text)

  /** The offers of the successful feeds since the last accepted begin. */
  function Offers(s: State, es: seq<Event>): seq<Offer> {
    if es == [] then []
    else
      var t, e := Exec(s, es[..|es| - 1]), es[|es| - 1];
      if Restarts(t, e) then []
      else if e.FeedCall? && StatusOf(t, e) == OK && e.hook.writes.slot.hasResult then
        var w := e.hook.writes;
        Offers(s, es[..|es| - 1]) + [Offer(w.slot.fullText, Claimed(w.slot, w.rows))]
      else Offers(s, es[..|es| - 1])
  }

  function AfterAll(os: seq<Offer>): Text {
    if os == [] then []
    else After(AfterAll(os[..|os| - 1]), os[|os| - 1].full, os[|os| - 1].claim)
  }

  lemma FamilyElsewhere(s: State, e: Event)
    requires Inv(s) && !e.BeginCall? && !e.FeedCall? && CommitsByFamily(Step(s, e))
    ensures !Restarts(s, e) && CommitsByFamily(s) && Step(s, e).committed == s.committed
  {
    if e.BatchCall? && BatchRejection(s, e.pcms, e.args) == OK {
      BatchLeavesNoStream(s, e.pcms, e.args, e.env);
    }
  }

  lemma FamilyFeedStep(s: State, e: Event)
    requires Inv(s) && e.FeedCall? && CommitsByFamily(Step(s, e))
    ensures CommitsByFamily(s)
    ensures Step(s, e).committed.text ==
            if StatusOf(s, e) == OK && e.hook.writes.slot.hasResult
            then After(s.committed.text, e.hook.writes.slot.fullText, Claimed(e.hook.writes.slot, e.hook.writes.rows))
            else s.committed.text
  {
    if StatusOf(s, e) == OK {
      FamilyFeedCommits(s, e.pcm, e.hook, e.update);
    }
  }

  lemma FamilyBeginStep(s: State, e: Event)
    requires Inv(s) && e.BeginCall? && CommitsByFamily(Step(s, e))
    ensures if Restarts(s, e) then Step(s, e).committed.text == [] else Step(s, e) == s
  {
  }

  lemma AfterAllNext(os: seq<Offer>, o: Offer)
    ensures AfterAll(os + [o]) == After(AfterAll(os), o.full, o.claim)
  {
    assert (os + [o])[..|os|] == os;
  }

  /** Over every run, with any hooks: the committed text of such a stream is what its
      offers since begin make of an empty one, claim by claim. */
  lemma {:induction false} FamilyCommitsClaims(model: Model, es: seq<Event>)
    ensures CommitsByFamily(Exec(Initial(model), es)) ==>
              Exec(Initial(model), es).committed.text == AfterAll(Offers(Initial(model), es))
  {
    if es != [] && CommitsByFamily(Exec(Initial(model), es)) {
      var before, e := es[..|es| - 1], es[|es| - 1];
      var s := Exec(Initial(model), before);
      FamilyCommitsClaims(model, before);
      ReachableInv(model, before);
      if e.FeedCall? {
        FamilyFeedStep(s, e);
        AfterAllNext(Offers(Initial(model), before),
                     Offer(e.hook.writes.slot.fullText, Claimed(e.hook.writes.slot, e.hook.writes.rows)));
      } else if e.BeginCall? {
        FamilyBeginStep(s, e);
      } else {
        FamilyElsewhere(s, e);
      }
    }
  }
}
