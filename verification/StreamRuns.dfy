/** Properties of whole runs: any sequence of public calls on one session, with
    any behaviour of the family hooks. */
module StreamRuns {
  import opened Options
  import opened Utf8
  import opened StreamText
  import opened Dispatch

  datatype Event =
    | BeginCall(begin: BeginArgs, hook: HookOutcome)
    | FeedCall(pcm: Pcm, hook: HookOutcome, update: Option<Update>)
    | FinalizeCall(hook: HookOutcome, update: Option<Update>)
    | ResetCall
    | RunCall(pcm: Pcm, run: RunArgs, out: RunOutcome, cancel: bool)
    | BatchCall(pcms: seq<Pcm>, args: BatchArgs, env: BatchEnv)

  function Step(s: State, e: Event): State {
    match e
    case BeginCall(a, hook) => Begin(s, a, hook).state
    case FeedCall(pcm, hook, u) => Feed(s, pcm, hook, u).state
    case FinalizeCall(hook, u) => Finalize(s, hook, u).state
    case ResetCall => Reset(s)
    case RunCall(pcm, a, out, cancel) => Run(s, pcm, a, out, cancel).state
    case BatchCall(pcms, a, env) => RunBatch(s, pcms, a, env).state
  }

  function StatusOf(s: State, e: Event): Status {
    match e
    case BeginCall(a, hook) => Begin(s, a, hook).status
    case FeedCall(pcm, hook, u) => Feed(s, pcm, hook, u).status
    case FinalizeCall(hook, u) => Finalize(s, hook, u).status
    case ResetCall => OK
    case RunCall(pcm, a, out, cancel) => Run(s, pcm, a, out, cancel).status
    case BatchCall(pcms, a, env) => RunBatch(s, pcms, a, env).status
  }

  function Exec(s: State, es: seq<Event>): State {
    if es == [] then s else Step(Exec(s, es[..|es| - 1]), es[|es| - 1])
  }

  /** The call passes every check that precedes the clearing of the result. */
  predicate Restarts(s: State, e: Event) {
    match e
    case BeginCall(a, hook) => BeginRejection(s, a) == OK
    case FeedCall(_, _, _) => false
    case FinalizeCall(_, _) => false
    case ResetCall => true
    case RunCall(pcm, a, out, cancel) => !Malformed(pcm) && pcm.finite && RunRejection(s, a) == OK
    case BatchCall(pcms, a, env) => BatchRejection(s, pcms, a) == OK
  }

  // ----- A restart forgets the past -----

  /** A reset session is a fresh one, except that it keeps the batch results and the
      truncation and repetition flags of the call before. */
  lemma ResetIsFreshExcept(s: State)
    ensures var kept := Flags(false, s.flags.truncated, s.flags.repetition);
            Reset(s) == Initial(s.model).(batch := s.batch, flags := kept)
  {
  }

  /** Once a begin, run or batch is accepted, nothing an earlier stream or call left
      behind can influence it: two sessions of one model end up the same, whatever
      happened to them before. Only begin carries the old batch results along. */
  lemma RestartForgetsThePast(s: State, t: State, e: Event)
    requires s.model == t.model && Restarts(s, e) && Restarts(t, e) && !e.ResetCall?
    ensures StatusOf(s, e) == StatusOf(t, e)
    ensures Step(s, e) == if e.BeginCall? then Step(t, e).(batch := s.batch) else Step(t, e)
  {
    if e.BatchCall? {
      assert ClearForRun(s).(batch := []) == ClearForRun(t).(batch := []);
    } else if e.RunCall? {
      assert ClearForRun(s.(batch := [])) == ClearForRun(t.(batch := []));
    }
  }

  // ----- What the batch path does to the stream fields -----

  /** No stream in progress, nothing left of an earlier one. */
  predicate NoStream(s: State) {
    s.lifecycle.Idle? && s.lastStatus == OK && s.revision == 0 && s.rows == NO_ROWS &&
    s.committed == EMPTY_COMMITTED && s.tentative == [] && s.history == []
  }

  lemma {:induction false} SerialKeepsNoStream(s: State, i: nat, pcms: seq<Pcm>, a: RunArgs, env: BatchEnv,
                                               truncated: bool)
    requires i <= |pcms| && NoStream(s)
    ensures var r := SerialFrom(s, i, pcms, a, env, truncated).state; NoStream(r) && r.model == s.model
    decreases |pcms| - i
  {
    if i < |pcms| && !env.poll(i) {
      var r := SerialOne(s, pcms[i], a, env.run(i));
      var any := truncated || Truncating(r.status);
      var kept := r.state.(batch := r.state.batch + [Captured(r.state.slot, r.status)]);
      SerialKeepsNoStream(kept, i + 1, pcms, a, env, any);
    }
  }

  lemma BatchLeavesNoStream(s: State, pcms: seq<Pcm>, a: BatchArgs, env: BatchEnv)
    requires BatchRejection(s, pcms, a) == OK
    ensures var r := RunBatch(s, pcms, a, env).state; NoStream(r) && r.model == s.model
  {
    var cleared := ClearForRun(s).(batch := []);
    SerialKeepsNoStream(cleared, 0, pcms, a.run, env, false);
  }

  // ----- The invariant of every reachable state -----

  ghost predicate Inv(s: State) {
    && (s.lastStatus != OK <==> s.lifecycle.Failed?)
    && (s.lifecycle.Idle? ==> NoStream(s))
    && (s.lifecycle.Active? ==>
          CanStream(s.model) && s.agreement <= MAX_AGREEMENT &&
          s.committed.start == |s.committed.text| &&
          |s.history| <= Agreement(s.agreement) &&
          (s.policy.OnFinalize? ==> s.committed == EMPTY_COMMITTED && s.history == []))
  }

  lemma ApplyFeedKeepsInv(s: State)
    requires Inv(s) && s.lifecycle.Active?
    ensures Inv(ApplyFeedText(s)) && s.committed.text <= ApplyFeedText(s).committed.text
  {
    if s.slot.hasResult {
      var raw := s.slot.fullText;
      AppendInstallsPrefix(raw, s.committed, SelectedCandidate(s).bytes);
      if s.policy.OnFinalize? {
        assert FloorBoundary(raw, 0) == 0;
      }
    }
  }

  lemma StreamStepKeepsInv(s: State, e: Event)
    requires Inv(s) && (e.BeginCall? || e.FeedCall? || e.FinalizeCall?)
    ensures Inv(Step(s, e)) && Step(s, e).model == s.model
  {
    if e.FeedCall? && s.lifecycle.Active? {
      ApplyFeedKeepsInv(Absorb(s, e.hook.writes));
    }
  }

  lemma StepKeepsInv(s: State, e: Event)
    requires Inv(s)
    ensures Inv(Step(s, e)) && Step(s, e).model == s.model
  {
    match e
    case ResetCall =>
    case RunCall(pcm, a, out, cancel) =>
    case BatchCall(pcms, a, env) =>
      if BatchRejection(s, pcms, a) == OK {
        BatchLeavesNoStream(s, pcms, a, env);
      }
    case _ => StreamStepKeepsInv(s, e);
  }

  /** Every state a caller can reach satisfies the invariant. In particular a
      non-OK last status is observable exactly in FAILED, and NOT_IMPLEMENTED
      cannot be the answer to a feed or finalize of an ACTIVE stream. */
  lemma {:induction false} ReachableInv(model: Model, es: seq<Event>)
    ensures Inv(Exec(Initial(model), es)) && Exec(Initial(model), es).model == model
  {
    if es != [] {
      ReachableInv(model, es[..|es| - 1]);
      StepKeepsInv(Exec(Initial(model), es[..|es| - 1]), es[|es| - 1]);
    }
  }

  // ----- The moments of a run -----

  /** The state after the first k calls of a run. */
  function Moment(s: State, es: seq<Event>, k: nat): State
    requires k <= |es|
  {
    Exec(s, es[..k])
  }

  lemma NextMoment(s: State, es: seq<Event>, k: nat)
    requires k < |es|
    ensures Moment(s, es, k + 1) == Step(Moment(s, es, k), es[k])
  {
    assert es[..k + 1][..k] == es[..k];
  }

  lemma {:induction false} MomentsKeepInv(s: State, es: seq<Event>, k: nat)
    requires Inv(s) && k <= |es|
    ensures Inv(Moment(s, es, k))
  {
    if k > 0 {
      NextMoment(s, es, k - 1);
      MomentsKeepInv(s, es, k - 1);
      StepKeepsInv(Moment(s, es, k - 1), es[k - 1]);
    }
  }

  // ----- Committed text is append-only -----

  lemma StreamStepAppends(s: State, e: Event)
    requires Inv(s) && (e.FeedCall? || e.FinalizeCall?)
    ensures s.committed.text <= Step(s, e).committed.text
  {
    if e.FeedCall? && s.lifecycle.Active? {
      ApplyFeedKeepsInv(Absorb(s, e.hook.writes));
    }
  }

  lemma StepAppends(s: State, e: Event)
    requires Inv(s) && !Restarts(s, e)
    ensures s.committed.text <= Step(s, e).committed.text
  {
    if e.FeedCall? || e.FinalizeCall? {
      StreamStepAppends(s, e);
    }
  }

  ghost predicate NeverRestarts(s: State, es: seq<Event>) {
    forall k :: 0 <= k < |es| ==> !Restarts(Exec(s, es[..k]), es[k])
  }

  lemma NeverRestartsPrefix(s: State, es: seq<Event>)
    requires es != [] && NeverRestarts(s, es)
    ensures NeverRestarts(s, es[..|es| - 1])
  {
    var before := es[..|es| - 1];
    forall k | 0 <= k < |before| ensures !Restarts(Exec(s, before[..k]), before[k]) {
      assert before[..k] == es[..k];
    }
  }

  /** Over every run between two restarts, whatever the hooks do and whichever
      calls fail, the stored committed text only ever gains bytes at its end. */
  lemma {:induction false} CommittedIsAppendOnly(s: State, es: seq<Event>)
    requires Inv(s) && NeverRestarts(s, es)
    ensures Inv(Exec(s, es)) && s.committed.text <= Exec(s, es).committed.text
  {
    if es != [] {
      var before := es[..|es| - 1];
      NeverRestartsPrefix(s, es);
      CommittedIsAppendOnly(s, before);
      StepAppends(Exec(s, before), es[|es| - 1]);
      StepKeepsInv(Exec(s, before), es[|es| - 1]);
    }
  }

  /** A failing feed whose hook clears its result first takes committed bytes
      away from the reader, although the stream still stores them. */
  lemma FailedFeedHidesCommitted(s: State, pcm: Pcm, w: HookWrites, uw: UpdateWrites)
    requires Inv(s) && s.lifecycle.Active? && s.slot.hasResult && s.committed.text != []
    requires !Malformed(pcm) && pcm.finite && !w.slot.hasResult
    ensures var r := Feed(s, pcm, HookOutcome(Returned(Backend), w, uw), None);
            r.state.lifecycle.Failed? && r.state.committed == s.committed &&
            GetText(s).committed != [] && GetText(r.state).committed == []
  {
    assert CanStream(s.model);
  }

  // ----- Finalize -----

  /** A successful finalize, in every reachable stream and under every policy:
      the tentative text is gone, and the committed text is the final hypothesis
      unless that hypothesis contradicts it, in which case it is untouched; so it is
      when the hook leaves no result, and a reader then sees no text at all. */
  lemma FinalizeInstallsFinalText(s: State, hook: HookOutcome, u: Option<Update>)
    requires Inv(s) && Finalize(s, hook, u).status == OK
    ensures var t := Finalize(s, hook, u).state;
            var full := hook.writes.slot.fullText;
            t.lifecycle.Finished? && t.slot == hook.writes.slot && t.tentative == [] &&
            if !t.slot.hasResult then t.committed == s.committed && GetText(t) == TextView([], [], [], 0)
            else
              t.committed.text == (if s.committed.text <= full then full else s.committed.text) &&
              GetText(t).rawStart == |full| && (s.policy.OnFinalize? ==> t.committed.text == full)
  {
    var full := hook.writes.slot.fullText;
    if s.committed.text <= full {
      assert s.committed.text + full[|s.committed.text|..] == full;
    }
  }

  // ----- Failure atomicity of the stream calls -----

  predicate IsStreamCall(e: Event) {
    e.BeginCall? || e.FeedCall? || e.FinalizeCall?
  }

  // The family hook ran: the call got past every check.
  predicate ReachesHook(s: State, e: Event) {
    match e
    case BeginCall(a, hook) => BeginRejection(s, a) == OK
    case FeedCall(pcm, hook, u) =>
      !BadUpdate(u) && !Malformed(pcm) && pcm.finite && s.lifecycle.Active? && CanStream(s.model)
    case FinalizeCall(hook, u) => !BadUpdate(u) && s.lifecycle.Active? && CanStream(s.model)
    case _ => false
  }

  /** A stream call either fails before its hook and changes nothing at all, or
      fails in its hook and ends FAILED with exactly the status it returned,
      or succeeds and is not FAILED. */
  lemma StreamCallIsAtomic(s: State, e: Event)
    requires Inv(s) && IsStreamCall(e)
    ensures !ReachesHook(s, e) ==> Step(s, e) == s && StatusOf(s, e) != OK
    ensures ReachesHook(s, e) ==>
              (Step(s, e).lifecycle.Failed? <==> StatusOf(s, e) != OK) &&
              Step(s, e).lastStatus == StatusOf(s, e) == ExitStatus(e.hook.exit)
    ensures ReachesHook(s, e) && !e.BeginCall? && StatusOf(s, e) != OK ==>
              Step(s, e).committed == s.committed && Step(s, e).tentative == s.tentative &&
              Step(s, e).history == s.history && Step(s, e).policy == s.policy
  {
    match e
    case BeginCall(a, hook) =>
    case FeedCall(pcm, hook, u) =>
    case FinalizeCall(hook, u) =>
    case _ =>
  }

  // Something was readable and the hook leaves no result behind.
  predicate HidesCommitted(s: State, e: Event) {
    GetText(s).committed != [] && ReachesHook(s, e) && !e.hook.writes.slot.hasResult
  }

  /** The text a caller can read is another matter: it is empty while the slot
      holds no result. It is append-only across a call exactly unless the call hides it. */
  lemma ReadableCommittedAcrossCall(s: State, e: Event)
    requires Inv(s) && !Restarts(s, e)
    ensures GetText(s).committed <= GetText(Step(s, e)).committed <==> !HidesCommitted(s, e)
  {
    StepAppends(s, e);
  }

  ghost predicate ReadableGrows(s: State, es: seq<Event>) {
    forall i: nat, j: nat :: i <= j <= |es| ==>
      GetText(Moment(s, es, i)).committed <= GetText(Moment(s, es, j)).committed
  }

  ghost predicate NeverHides(s: State, es: seq<Event>) {
    forall k: nat :: k < |es| ==> !HidesCommitted(Moment(s, es, k), es[k])
  }

  lemma {:induction false} UnhiddenGrows(s: State, es: seq<Event>, i: nat, j: nat)
    requires Inv(s) && NeverRestarts(s, es) && NeverHides(s, es) && i <= j <= |es|
    ensures GetText(Moment(s, es, i)).committed <= GetText(Moment(s, es, j)).committed
  {
    if i < j {
      UnhiddenGrows(s, es, i, j - 1);
      ReadableAtNextMoment(s, es, j - 1);
    }
  }

  lemma ReadableAtNextMoment(s: State, es: seq<Event>, k: nat)
    requires Inv(s) && NeverRestarts(s, es) && k < |es|
    ensures GetText(Moment(s, es, k)).committed <= GetText(Moment(s, es, k + 1)).committed <==>
            !HidesCommitted(Moment(s, es, k), es[k])
  {
    NextMoment(s, es, k);
    MomentsKeepInv(s, es, k);
    ReadableCommittedAcrossCall(Moment(s, es, k), es[k]);
  }

  /** Over every run between two restarts a caller only ever sees committed bytes being
      added exactly when no call hides them. */
  lemma ReadableCommittedOverRun(s: State, es: seq<Event>)
    requires Inv(s) && NeverRestarts(s, es)
    ensures ReadableGrows(s, es) <==> NeverHides(s, es)
  {
    if NeverHides(s, es) {
      forall i: nat, j: nat | i <= j <= |es|
        ensures GetText(Moment(s, es, i)).committed <= GetText(Moment(s, es, j)).committed
      {
        UnhiddenGrows(s, es, i, j);
      }
    }
    if ReadableGrows(s, es) {
      forall k: nat | k < |es| ensures !HidesCommitted(Moment(s, es, k), es[k]) {
        ReadableAtNextMoment(s, es, k);
      }
    }
  }

  // ----- Revision -----

  /** What a UI reads: the three texts. */
  datatype Shown = Shown(full: Text, committed: Text, tentative: Text)

  function ShownBy(s: State): Shown {
    var t := GetText(s);
    Shown(t.full, t.committed, t.tentative)
  }

  /** Whether a caller watches the texts only, or every accessor that the counter is
      documented to cover: rows, row counts and lifecycle too. */
  datatype Sight = Texts | Everything

  datatype Observed = Observed(shown: Shown, slot: Snapshot, rows: Rows, lifecycle: Lifecycle)

  function Observe(sight: Sight, s: State): Observed {
    if sight.Texts? then Observed(ShownBy(s), EMPTY_SLOT, NO_ROWS, Idle)
    else Observed(ShownBy(s), View(s.slot), s.rows, s.lifecycle)
  }

  // The hook never lowers the counter.
  predicate HookAdvances(s: State, e: Event) {
    ReachesHook(s, e) && !e.BeginCall? ==> e.hook.writes.revision >= s.revision
  }

  // The hook reported a change, to a caller that passed an update.
  predicate ReportsChange(e: Event) {
    (e.FeedCall? || e.FinalizeCall?) && e.update.Some? && e.hook.update.resultChanged
  }

  // The guard of the dispatcher's own bump: one of the texts moved.
  predicate TextMoves(s: State, e: Event)
    requires e.FeedCall? || e.FinalizeCall?
  {
    var ran := Absorb(s, e.hook.writes);
    ObservableChange(s, if e.FeedCall? then ApplyFeedText(ran) else ApplyFinalizeText(ran), false)
  }

  // A successful ON_FINALIZE feed hides the counts the hook wrote.
  predicate HidesRows(s: State, e: Event) {
    e.FeedCall? && StatusOf(s, e) == OK && s.policy.OnFinalize?
  }

  function RowsLeft(s: State, e: Event): Rows
    requires e.FeedCall? || e.FinalizeCall?
  {
    if HidesRows(s, e) then NO_ROWS else e.hook.writes.rows
  }

  /** The call gets by without the counter. Its hook has not counted, and either it
      fails, having rewritten what the caller watches; or it succeeds, nothing is
      reported, no text moves, and yet it finalizes, or leaves other rows or counts. */
  predicate MovesSilently(sight: Sight, s: State, e: Event)
    requires !Restarts(s, e)
  {
    ReachesHook(s, e) && e.hook.writes.revision == s.revision &&
    if StatusOf(s, e) != OK then
      sight.Everything? || ShownBy(s) != ShownBy(s.(slot := e.hook.writes.slot))
    else
      sight.Everything? && !ReportsChange(e) && !TextMoves(s, e) &&
      (e.FinalizeCall? || View(e.hook.writes.slot) != View(s.slot) || RowsLeft(s, e) != s.rows)
  }

  ghost predicate MissesChange(sight: Sight, s: State, t: State) {
    s.revision == t.revision && Observe(sight, s) != Observe(sight, t)
  }

  lemma FeedRevision(sight: Sight, s: State, e: Event)
    requires Inv(s) && e.FeedCall?
    ensures MissesChange(sight, s, Step(s, e)) <==> MovesSilently(sight, s, e)
    ensures s.revision <= Step(s, e).revision <==> HookAdvances(s, e)
  {
  }

  lemma FinalizeRevision(sight: Sight, s: State, e: Event)
    requires Inv(s) && e.FinalizeCall?
    ensures MissesChange(sight, s, Step(s, e)) <==> MovesSilently(sight, s, e)
    ensures s.revision <= Step(s, e).revision <==> HookAdvances(s, e)
  {
  }

  /** One call. The counter misses a change exactly when the call moves silently, and
      goes back exactly when the hook lowers it. */
  lemma RevisionAcrossCall(sight: Sight, s: State, e: Event)
    requires Inv(s) && !Restarts(s, e)
    ensures MissesChange(sight, s, Step(s, e)) <==> MovesSilently(sight, s, e)
    ensures s.revision <= Step(s, e).revision <==> HookAdvances(s, e)
  {
    match e
    case FeedCall(pcm, hook, u) => FeedRevision(sight, s, e);
    case FinalizeCall(hook, u) => FinalizeRevision(sight, s, e);
    case _ =>
  }

  /** A later moment of a run never has a smaller revision, and one with the same
      revision looks the same. */
  ghost predicate Tracks(sight: Sight, s: State, t: State) {
    s.revision <= t.revision && (s.revision == t.revision ==> Observe(sight, s) == Observe(sight, t))
  }

  ghost predicate RevisionSound(sight: Sight, s: State, es: seq<Event>) {
    forall i: nat, j: nat :: i <= j <= |es| ==> Tracks(sight, Moment(s, es, i), Moment(s, es, j))
  }

  ghost predicate Counted(sight: Sight, s: State, e: Event) {
    !Restarts(s, e) ==> HookAdvances(s, e) && !MovesSilently(sight, s, e)
  }

  ghost predicate AllCounted(sight: Sight, s: State, es: seq<Event>) {
    forall k: nat :: k < |es| ==> Counted(sight, Moment(s, es, k), es[k])
  }

  lemma {:induction false} CountedMomentsTrack(sight: Sight, s: State, es: seq<Event>, i: nat, j: nat)
    requires Inv(s) && NeverRestarts(s, es) && AllCounted(sight, s, es) && i <= j <= |es|
    ensures Tracks(sight, Moment(s, es, i), Moment(s, es, j))
  {
    if i < j {
      var t := Moment(s, es, j - 1);
      CountedMomentsTrack(sight, s, es, i, j - 1);
      NextMoment(s, es, j - 1);
      MomentsKeepInv(s, es, j - 1);
      assert Counted(sight, t, es[j - 1]);
      RevisionAcrossCall(sight, t, es[j - 1]);
    }
  }

  /** Over every run between two restarts, whichever calls fail: the counter never goes
      back and any two moments of equal revision look the same, exactly when no hook
      lowers the counter and no call moves silently. */
  lemma EqualRevisionEqualSnapshots(sight: Sight, s: State, es: seq<Event>)
    requires Inv(s) && NeverRestarts(s, es)
    ensures RevisionSound(sight, s, es) <==> AllCounted(sight, s, es)
  {
    if AllCounted(sight, s, es) {
      forall i: nat, j: nat | i <= j <= |es| ensures Tracks(sight, Moment(s, es, i), Moment(s, es, j)) {
        CountedMomentsTrack(sight, s, es, i, j);
      }
    }
    if RevisionSound(sight, s, es) {
      forall k: nat | k < |es| ensures Counted(sight, Moment(s, es, k), es[k]) {
        NextMoment(s, es, k);
        MomentsKeepInv(s, es, k);
        assert Tracks(sight, Moment(s, es, k), Moment(s, es, k + 1));
        RevisionAcrossCall(sight, Moment(s, es, k), es[k]);
      }
    }
  }

  /** What an update says about a call from s to t. */
  predicate Mirrors(s: State, t: State, u: Option<Update>, final: bool) {
    && u.Some? && u.value.revision == t.revision
    && (u.value.resultChanged <==> t.revision != s.revision)
    && (u.value.isFinal <==> final)
    && (u.value.structSize >= TENTATIVE_CHANGED_END ==>
          (u.value.committedChanged <==> t.committed.text != s.committed.text) &&
          (u.value.tentativeChanged <==> t.tentative != s.tentative))
  }

  lemma PublishedMirrors(s: State, after: State, u: Option<Update>)
    requires u.Some?
    ensures Mirrors(s, Bump(s, after, Reported(u)), Published(s, after, u), u.value.isFinal)
  {
  }

  /** The update a successful feed or finalize fills in tells the truth: its revision
      is the session's, and result_changed says whether that revision moved. */
  lemma UpdateMirrorsRevision(s: State, pcm: Pcm, hook: HookOutcome, u: Update)
    ensures var r := Feed(s, pcm, hook, Some(u)); r.status == OK ==> Mirrors(s, r.state, r.update, false)
    ensures var r := Finalize(s, hook, Some(u)); r.status == OK ==> Mirrors(s, r.state, r.update, true)
  {
    var ran, seen := Absorb(s, hook.writes), HookUpdate(Prepared(Some(u)), hook.update);
    PublishedMirrors(s, HideCounts(ApplyFeedText(ran)), seen);
    PublishedMirrors(s, ApplyFinalizeText(ran), MarkFinal(seen, hook.exit));
  }

  /** The hook reports a change that it does not count and that no text shows. */
  predicate ReportsUncounted(s: State, e: Event)
    requires e.FeedCall? || e.FinalizeCall?
  {
    ReachesHook(s, e) && ExitStatus(e.hook.exit) == OK &&
    e.hook.update.resultChanged && e.hook.writes.revision == s.revision && !TextMoves(s, e)
  }

  /** Two outcomes of one call, with and without an update. */
  predicate DifferInRevision(with: Outcome, without: Outcome, differ: bool) {
    && with.status == without.status
    && with.state == without.state.(revision := with.state.revision)
    && (with.state.revision != without.state.revision <==> differ)
  }

  lemma FeedUpdateArgument(s: State, pcm: Pcm, hook: HookOutcome, u: Update)
    requires u.structSize >= MIN_UPDATE_SIZE
    ensures DifferInRevision(Feed(s, pcm, hook, Some(u)), Feed(s, pcm, hook, None),
                             ReportsUncounted(s, FeedCall(pcm, hook, None)))
  {
  }

  lemma FinalizeUpdateArgument(s: State, hook: HookOutcome, u: Update)
    requires u.structSize >= MIN_UPDATE_SIZE
    ensures DifferInRevision(Finalize(s, hook, Some(u)), Finalize(s, hook, None),
                             ReportsUncounted(s, FinalizeCall(hook, None)))
  {
  }

  /** The update argument is optional, but passing it is observable: the same feed or
      finalize leads to the same state except that the revision differs exactly when
      the hook reports a change that no text shows and does not count itself. */
  lemma UpdateArgumentAffectsRevisionOnly(s: State, pcm: Pcm, hook: HookOutcome, u: Update)
    requires u.structSize >= MIN_UPDATE_SIZE
    ensures DifferInRevision(Feed(s, pcm, hook, Some(u)), Feed(s, pcm, hook, None),
                             ReportsUncounted(s, FeedCall(pcm, hook, None)))
    ensures DifferInRevision(Finalize(s, hook, Some(u)), Finalize(s, hook, None),
                             ReportsUncounted(s, FinalizeCall(hook, None)))
  {
    FeedUpdateArgument(s, pcm, hook, u);
    FinalizeUpdateArgument(s, hook, u);
  }

  // ----- Silent moves that do happen -----

  /** Everything the model says is committed. */
  predicate Settled(s: State) {
    s.lifecycle.Active? && s.slot.hasResult && s.committed.text == s.slot.fullText && s.tentative == []
  }

  /** Agreement 1 settles a stream with its first hypothesis. */
  lemma AgreementOneSettles(s: State, pcm: Pcm, hook: HookOutcome)
    requires Inv(s) && CommitsByAgreement(s) && s.agreement == 1 && s.committed == EMPTY_COMMITTED
    requires Feed(s, pcm, hook, None).status == OK && hook.writes.slot.hasResult
    ensures Settled(Feed(s, pcm, hook, None).state)
  {
    var raw := hook.writes.slot.fullText;
    assert raw[..0] == [] && [] + raw[0..] == raw;
    AppendInstallsPrefix(raw, s.committed, |raw|);
  }

  lemma SettledStaysSettled(s: State, slot: Snapshot)
    requires Inv(s) && Settled(s) && slot.hasResult && slot.fullText == s.slot.fullText
    ensures var t := ApplyFeedText(s.(slot := slot)); t.committed == s.committed && t.tentative == []
    ensures !ObservableChange(s, ApplyFinalizeText(s.(slot := slot)), false)
  {
    var t := s.(slot := slot);
    AppendInstallsPrefix(slot.fullText, s.committed, SelectedCandidate(t).bytes);
  }

  // A hook that writes this and neither counts nor reports it.
  function Quietly(s: State, slot: Snapshot, rows: Rows): HookOutcome {
    HookOutcome(Returned(OK), HookWrites(slot, s.revision, rows, s.flags), UpdateWrites(false, s.revision, 0, 0, 0))
  }

  /** Token rows that change under an equal text. */
  lemma TokenRowsMoveSilently(s: State, pcm: Pcm, tokens: seq<Text>)
    requires Inv(s) && Settled(s) && !Malformed(pcm) && pcm.finite && tokens != s.slot.tokens
    ensures var t := Feed(s, pcm, Quietly(s, s.slot.(tokens := tokens), s.rows), None);
            t.status == OK && t.state.slot.tokens != s.slot.tokens && t.state.revision == s.revision
  {
    var hook := Quietly(s, s.slot.(tokens := tokens), s.rows);
    SettledStaysSettled(Absorb(s, hook.writes).(slot := s.slot), hook.writes.slot);
  }

  /** Row counts that change on a settled stream, or before there is any result. */
  lemma RowHintsMoveSilently(s: State, pcm: Pcm, rows: Rows)
    requires Inv(s) && (Settled(s) || (s.lifecycle.Active? && !s.slot.hasResult && s.tentative == []))
    requires !s.policy.OnFinalize? && rows != s.rows && !Malformed(pcm) && pcm.finite
    ensures var t := Feed(s, pcm, Quietly(s, s.slot, rows), None);
            t.status == OK && t.state.rows != s.rows && t.state.revision == s.revision
  {
    if Settled(s) {
      SettledStaysSettled(Absorb(s, Quietly(s, s.slot, rows).writes), s.slot);
    }
  }

  /** A finalize of a settled stream: ACTIVE becomes FINISHED at the same revision. */
  lemma FinalizeMovesSilently(s: State)
    requires Inv(s) && Settled(s)
    ensures var t := Finalize(s, Quietly(s, s.slot, s.rows), None);
            t.status == OK && t.state.lifecycle.Finished? && t.state.revision == s.revision
  {
    SettledStaysSettled(s, s.slot);
  }

  // ----- Row counts -----

  predicate AtLeast(a: Rows, b: Rows) {
    a.tokens >= b.tokens && a.words >= b.words && a.segments >= b.segments
  }

  /** The hook treats the counts as high-water marks, and hidden ones were zero. */
  predicate KeepsMarks(s: State, e: Event) {
    ReachesHook(s, e) && !e.BeginCall? ==> AtLeast(RowsLeft(s, e), s.rows)
  }

  /** Across a call the committed row counts are high-water marks exactly when the hook
      keeps them and no successful ON_FINALIZE feed hides counts above zero. */
  lemma RowMarksAcrossCall(s: State, e: Event)
    requires Inv(s) && !Restarts(s, e)
    ensures AtLeast(Step(s, e).rows, s.rows) <==> KeepsMarks(s, e)
  {
    match e
    case FeedCall(pcm, hook, u) => FeedMarks(s, pcm, hook, u);
    case FinalizeCall(hook, u) => FinalizeMarks(s, hook, u);
    case _ =>
  }

  lemma FeedMarks(s: State, pcm: Pcm, hook: HookOutcome, u: Option<Update>)
    ensures var e := FeedCall(pcm, hook, u); Step(s, e).rows == if ReachesHook(s, e) then RowsLeft(s, e) else s.rows
  {
  }

  lemma FinalizeMarks(s: State, hook: HookOutcome, u: Option<Update>)
    ensures var e := FinalizeCall(hook, u); Step(s, e).rows == if ReachesHook(s, e) then RowsLeft(s, e) else s.rows
  {
  }

  ghost predicate MarksRise(s: State, es: seq<Event>) {
    forall i: nat, j: nat :: i <= j <= |es| ==> AtLeast(Moment(s, es, j).rows, Moment(s, es, i).rows)
  }

  ghost predicate AllKeepMarks(s: State, es: seq<Event>) {
    forall k: nat :: k < |es| ==> KeepsMarks(Moment(s, es, k), es[k])
  }

  lemma {:induction false} KeptMarksRise(s: State, es: seq<Event>, i: nat, j: nat)
    requires Inv(s) && NeverRestarts(s, es) && AllKeepMarks(s, es) && i <= j <= |es|
    ensures AtLeast(Moment(s, es, j).rows, Moment(s, es, i).rows)
  {
    if i < j {
      KeptMarksRise(s, es, i, j - 1);
      NextMoment(s, es, j - 1);
      MomentsKeepInv(s, es, j - 1);
      assert KeepsMarks(Moment(s, es, j - 1), es[j - 1]);
      RowMarksAcrossCall(Moment(s, es, j - 1), es[j - 1]);
    }
  }

  /** Over every run between two restarts the counts only rise exactly when every call
      keeps them. */
  lemma RowMarksOverRun(s: State, es: seq<Event>)
    requires Inv(s) && NeverRestarts(s, es)
    ensures MarksRise(s, es) <==> AllKeepMarks(s, es)
  {
    if AllKeepMarks(s, es) {
      forall i: nat, j: nat | i <= j <= |es| ensures AtLeast(Moment(s, es, j).rows, Moment(s, es, i).rows) {
        KeptMarksRise(s, es, i, j);
      }
    }
    if MarksRise(s, es) {
      forall k: nat | k < |es| ensures KeepsMarks(Moment(s, es, k), es[k]) {
        NextMoment(s, es, k);
        MomentsKeepInv(s, es, k);
        RowMarksAcrossCall(Moment(s, es, k), es[k]);
      }
    }
  }

  // Any stream hook, begin included, writes counts of zero or more.
  predicate WritesMarks(e: Event) {
    IsStreamCall(e) ==> AtLeast(e.hook.writes.rows, NO_ROWS)
  }

  lemma {:induction false} RowsAreCounts(model: Model, es: seq<Event>)
    requires forall k :: 0 <= k < |es| ==> WritesMarks(es[k])
    ensures AtLeast(Exec(Initial(model), es).rows, NO_ROWS)
  {
    if es != [] {
      var s, e := Exec(Initial(model), es[..|es| - 1]), es[|es| - 1];
      RowsAreCounts(model, es[..|es| - 1]);
      match e
      case FeedCall(pcm, hook, u) => FeedMarks(s, pcm, hook, u);
      case FinalizeCall(hook, u) => FinalizeMarks(s, hook, u);
      case BatchCall(pcms, a, env) =>
        if BatchRejection(s, pcms, a) == OK {
          BatchLeavesNoStream(s, pcms, a, env);
        }
      case _ =>
    }
  }

  function Clamp(mark: int, count: nat): int {
    if mark <= count then mark else count
  }

  /** After clamping to the rows there are now, the counts of every reachable state are
      valid row boundaries, however far the hypothesis has shrunk; and clamping the
      token mark does not change the text it stands for. */
  lemma ClampedMarksAreBoundaries(model: Model, es: seq<Event>)
    requires forall k :: 0 <= k < |es| ==> WritesMarks(es[k])
    ensures var s := Exec(Initial(model), es);
            var shown := View(s.slot);
            && 0 <= Clamp(s.rows.tokens, |shown.tokens|) <= |shown.tokens|
            && 0 <= Clamp(s.rows.words, shown.words) <= shown.words
            && 0 <= Clamp(s.rows.segments, shown.segments) <= shown.segments
            && TokenPrefixBytes(shown.fullText, shown.tokens, Clamp(s.rows.tokens, |shown.tokens|)) ==
               TokenPrefixBytes(shown.fullText, shown.tokens, s.rows.tokens)
  {
    RowsAreCounts(model, es);
  }

  // ----- Display -----

  /** After a successful feed, committed and tentative text make up the hypothesis
      exactly when the committed text is a prefix of it that ends at a code point start. */
  lemma DisplayAfterFeed(s: State, pcm: Pcm, hook: HookOutcome, u: Option<Update>)
    requires Inv(s) && Feed(s, pcm, hook, u).status == OK
    ensures var t := GetText(Feed(s, pcm, hook, u).state);
            t.committed + t.tentative == t.full <==> t.committed <= t.full && IsBoundary(t.full, |t.committed|)
  {
    var ran := Absorb(s, hook.writes);
    ApplyFeedKeepsInv(ran);
    DisplayReconstructs(ApplyFeedText(ran).committed.text, hook.writes.slot.fullText);
  }

  /** The offset the caller reads is the length of the committed text, cut to the
      hypothesis; and the tentative text is the suffix behind it exactly when it is a code
      point start of the hypothesis, else it starts earlier. */
  lemma TentativeIsSuffixIff(s: State, pcm: Pcm, hook: HookOutcome, u: Option<Update>)
    requires Inv(s) && Feed(s, pcm, hook, u).status == OK
    ensures var t := GetText(Feed(s, pcm, hook, u).state);
            t.rawStart <= |t.full| && (|t.committed| <= |t.full| ==> t.rawStart == |t.committed|) &&
            (|t.committed| > |t.full| ==> t.rawStart == |t.full|) &&
            (t.tentative == t.full[t.rawStart..] <==> IsBoundary(t.full, t.rawStart))
  {
    var ran := Absorb(s, hook.writes);
    ApplyFeedKeepsInv(ran);
    SuffixIff(hook.writes.slot.fullText, ApplyFeedText(ran).committed.start);
  }

  /** Where it starts earlier: one byte is committed, and the hypothesis becomes a single
      code point of two. */
  lemma TentativeStartsEarlier(s: State, pcm: Pcm)
    requires Inv(s) && s.lifecycle.Active? && s.committed.text == [97] && !Malformed(pcm) && pcm.finite
    ensures var slot := Snapshot([], 0, 0, [0xC3, 0xA9], [], [], true);
            var t := GetText(Feed(s, pcm, Quietly(s, slot, NO_ROWS), None).state);
            t.rawStart == 1 && t.tentative == [0xC3, 0xA9] == t.full
  {
    var slot := Snapshot([], 0, 0, [0xC3, 0xA9], [], [], true);
    assert FloorBoundary(slot.fullText, 1) == 0;
    TentativeIsSuffixIff(s, pcm, Quietly(s, slot, NO_ROWS), None);
  }

  lemma SuffixIff(full: Text, start: nat)
    ensures Tentative(full, start) == full[Min(start, |full|)..] <==> IsBoundary(full, Min(start, |full|))
  {
    if !IsBoundary(full, Min(start, |full|)) {
      assert |Tentative(full, start)| > |full[Min(start, |full|)..]|;
    }
  }

  // ----- The stable-prefix rule over whole runs -----

  /** The hypotheses fed since the last accepted begin, oldest first. */
  function Fed(s: State, es: seq<Event>): seq<Text> {
    if es == [] then []
    else
      var t := Exec(s, es[..|es| - 1]);
      var e := es[|es| - 1];
      if Restarts(t, e) then []
      else if e.FeedCall? && StatusOf(t, e) == OK && Step(t, e).slot.hasResult
      then Fed(s, es[..|es| - 1]) + [Step(t, e).slot.fullText]
      else Fed(s, es[..|es| - 1])
  }

  predicate CommitsByAgreement(s: State) {
    s.lifecycle.Active? && UsesGenericText(s.model) && !s.policy.OnFinalize?
  }

  lemma FeedIsFeedText(s: State, raw: Text)
    requires CommitsByAgreement(s) && s.slot.hasResult && s.slot.fullText == raw
    ensures var t := ApplyFeedText(s);
            TextState(t.committed, t.history) == FeedText(TextState(s.committed, s.history), raw, s.agreement)
  {
  }

  ghost predicate Commits(s: State, hs: seq<Text>) {
    TextState(s.committed, s.history) == FeedAll(s.agreement, hs)
  }

  lemma AgreementFeed(s: State, e: Event, hs: seq<Text>)
    requires Inv(s) && e.FeedCall? && ReachesHook(s, e) && StatusOf(s, e) == OK
    requires CommitsByAgreement(s) && Commits(s, hs)
    ensures var t := Step(s, e); Commits(t, if t.slot.hasResult then hs + [t.slot.fullText] else hs)
  {
    var ran := Absorb(s, e.hook.writes);
    if ran.slot.hasResult {
      FeedIsFeedText(ran, ran.slot.fullText);
      FeedAllStep(s.agreement, hs, ran.slot.fullText);
    }
  }

  lemma AgreementBegin(s: State, e: Event)
    requires e.BeginCall? && Restarts(s, e)
    ensures Commits(Step(s, e), [])
  {
  }

  lemma AgreementElsewhere(s: State, e: Event)
    requires Inv(s) && !e.BeginCall? && !e.FeedCall? && CommitsByAgreement(Step(s, e))
    ensures var t := Step(s, e);
            !Restarts(s, e) && CommitsByAgreement(s) &&
            t.committed == s.committed && t.history == s.history && t.agreement == s.agreement
  {
    if e.BatchCall? && BatchRejection(s, e.pcms, e.args) == OK {
      BatchLeavesNoStream(s, e.pcms, e.args, e.env);
    }
  }

  lemma AgreementStep(s: State, e: Event, hs: seq<Text>)
    requires Inv(s) && CommitsByAgreement(Step(s, e))
    requires CommitsByAgreement(s) ==> Commits(s, hs)
    ensures var t := Step(s, e);
            Commits(t, if Restarts(s, e) then []
                       else if e.FeedCall? && StatusOf(s, e) == OK && t.slot.hasResult then hs + [t.slot.fullText]
                       else hs)
  {
    if e.FeedCall? {
      if ReachesHook(s, e) && StatusOf(s, e) == OK {
        AgreementFeed(s, e, hs);
      }
    } else if e.BeginCall? && Restarts(s, e) {
      AgreementBegin(s, e);
    } else if !e.BeginCall? {
      AgreementElsewhere(s, e);
    }
  }

  /** In every reachable ACTIVE stream that commits by text agreement, what is
      committed is what the committer makes of the hypotheses fed since begin. */
  lemma {:induction false} StreamCommitsFedHypotheses(model: Model, es: seq<Event>)
    ensures var s := Exec(Initial(model), es);
            CommitsByAgreement(s) ==>
              TextState(s.committed, s.history) == FeedAll(s.agreement, Fed(Initial(model), es))
  {
    if es != [] {
      var before := es[..|es| - 1];
      StreamCommitsFedHypotheses(model, before);
      ReachableInv(model, before);
      if CommitsByAgreement(Exec(Initial(model), es)) {
        AgreementStep(Exec(Initial(model), before), es[|es| - 1], Fed(Initial(model), before));
      }
    }
  }

  /** Safety for arbitrary hooks: at every moment of every run, the committed
      text is empty or a prefix shared by n consecutive hypotheses. */
  lemma CommittedRestsOnAgreement(model: Model, es: seq<Event>) returns (t: nat)
    requires CommitsByAgreement(Exec(Initial(model), es))
    ensures var s := Exec(Initial(model), es);
            var hs := Fed(Initial(model), es);
            var n := Agreement(s.agreement);
            s.committed.text == [] || (n <= t <= |hs| && forall i :: t - n <= i < t ==> s.committed.text <= hs[i])
  {
    StreamCommitsFedHypotheses(model, es);
    t := CommittedWasShared(Exec(Initial(model), es).agreement, Fed(Initial(model), es));
  }

  /** With well-formed hypotheses it is exactly the declared text. */
  lemma CommittedIsDeclared(model: Model, es: seq<Event>)
    requires CommitsByAgreement(Exec(Initial(model), es))
    requires AllWellFormed(Fed(Initial(model), es))
    ensures var s := Exec(Initial(model), es);
            s.committed.text == Declared(Agreement(s.agreement), Fed(Initial(model), es))
  {
    StreamCommitsFedHypotheses(model, es);
    IncrementalRefinesDeclared(Exec(Initial(model), es).agreement, Fed(Initial(model), es));
  }

  /** Two streams that were fed the same well-formed hypotheses, whatever else happened to
      either: the one with the larger agreement has committed a prefix of what the other
      has exactly when it never took a text that contradicts what the other held. */
  lemma LargerAgreementStream(model: Model, es: seq<Event>, other: Model, fs: seq<Event>)
    requires CommitsByAgreement(Exec(Initial(model), es)) && CommitsByAgreement(Exec(Initial(other), fs))
    requires Fed(Initial(model), es) == Fed(Initial(other), fs) && AllWellFormed(Fed(Initial(model), es))
    requires Agreement(Exec(Initial(other), fs).agreement) <= Agreement(Exec(Initial(model), es).agreement)
    ensures var larger, smaller := Exec(Initial(model), es), Exec(Initial(other), fs);
            larger.committed.text <= smaller.committed.text <==>
            NeverContradicts(larger.agreement, smaller.agreement, Fed(Initial(model), es))
  {
    StreamCommitsFedHypotheses(model, es);
    StreamCommitsFedHypotheses(other, fs);
    LargerAgreementCommitsLaterIff(Exec(Initial(model), es).agreement, Exec(Initial(other), fs).agreement,
                                   Fed(Initial(model), es));
  }

  // ----- Nothing shown ever splits a code point -----

  predicate WritesWellFormed(e: Event) {
    match e
    case BeginCall(a, hook) => WellFormed(hook.writes.slot.fullText)
    case FeedCall(pcm, hook, u) => WellFormed(hook.writes.slot.fullText)
    case FinalizeCall(hook, u) => WellFormed(hook.writes.slot.fullText)
    case _ => true
  }

  predicate TextsWellFormed(s: State) {
    WellFormed(s.committed.text) && WellFormed(s.tentative)
  }

  lemma ApplyFeedKeepsWellFormed(s: State)
    requires Inv(s) && s.lifecycle.Active? && TextsWellFormed(s) && WellFormed(s.slot.fullText)
    ensures TextsWellFormed(ApplyFeedText(s))
  {
    if s.slot.hasResult {
      var raw := s.slot.fullText;
      var bytes := SelectedCandidate(s).bytes;
      AppendInstallsPrefix(raw, s.committed, bytes);
      CutAtBoundary(raw, FloorBoundary(raw, Min(bytes, |raw|)));
      CutAtBoundary(raw, FloorBoundary(raw, Min(AppendCommitted(raw, s.committed, bytes).start, |raw|)));
    }
  }

  lemma FeedKeepsWellFormed(s: State, e: Event)
    requires Inv(s) && TextsWellFormed(s) && WritesWellFormed(e) && e.FeedCall?
    ensures TextsWellFormed(Step(s, e))
  {
    if s.lifecycle.Active? {
      ApplyFeedKeepsWellFormed(Absorb(s, e.hook.writes));
    }
  }

  lemma FinalizeKeepsWellFormed(s: State, e: Event)
    requires Inv(s) && TextsWellFormed(s) && WritesWellFormed(e) && e.FinalizeCall?
    ensures TextsWellFormed(Step(s, e))
  {
    if StatusOf(s, e) == OK {
      FinalizeInstallsFinalText(s, e.hook, e.update);
    }
  }

  lemma StepKeepsWellFormed(s: State, e: Event)
    requires Inv(s) && TextsWellFormed(s) && WritesWellFormed(e)
    ensures TextsWellFormed(Step(s, e))
  {
    if e.FeedCall? {
      FeedKeepsWellFormed(s, e);
    } else if e.FinalizeCall? {
      FinalizeKeepsWellFormed(s, e);
    } else if e.BatchCall? && BatchRejection(s, e.pcms, e.args) == OK {
      BatchLeavesNoStream(s, e.pcms, e.args, e.env);
    }
  }

  /** If every hypothesis is well-formed UTF-8, so is every committed text, every
      tentative text and what a UI renders from them, even while the seam between
      the two is incoherent, under every policy and every prefix source. */
  lemma {:induction false} DisplayIsAlwaysWellFormed(model: Model, es: seq<Event>)
    requires forall k :: 0 <= k < |es| ==> WritesWellFormed(es[k])
    ensures var s := Exec(Initial(model), es);
            TextsWellFormed(s) && WellFormed(s.committed.text + s.tentative)
  {
    var s := Exec(Initial(model), es);
    if es != [] {
      var before := es[..|es| - 1];
      DisplayIsAlwaysWellFormed(model, before);
      ReachableInv(model, before);
      StepKeepsWellFormed(Exec(Initial(model), before), es[|es| - 1]);
    }
    JoinWellFormed(s.committed.text, s.tentative);
  }
}
