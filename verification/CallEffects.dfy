/** What one public call does to the session, field by field, and what each refusal says:
    the arguments a stream keeps, what the hook's outcome leaves behind, and how a cancel
    shows. */
module CallEffects {
  import opened Options
  import opened Dispatch
  import opened StreamText

  predicate Streams(m: Model) {
    m.Model? && m.streams
  }

  predicate Runs(m: Model) {
    m.Model? && m.runs
  }

  predicate LargeEnough(u: Option<Update>) {
    u.None? || u.value.structSize >= 40
  }

  predicate Audible(pcm: Pcm) {
    pcm.Samples? && pcm.count > 0
  }

  // ----- Begin -----

  predicate KnownArguments(a: BeginArgs) {
    0 <= a.policyRaw <= 2 && a.agreement <= 32
  }

  predicate BeginAccepted(s: State, a: BeginArgs) {
    a.runSizeOk && a.streamSizeOk && KnownArguments(a) && !s.lifecycle.Active? && Streams(s.model) && a.preflight == OK
  }

  /** Whatever it refuses, begin changes nothing and names the first thing wrong. */
  lemma BeginRefusals(s: State, a: BeginArgs, hook: HookOutcome)
    requires !BeginAccepted(s, a)
    ensures Begin(s, a, hook).state == s
    ensures Begin(s, a, hook).status ==
            if !a.runSizeOk || !a.streamSizeOk then BadStructSize
            else if !KnownArguments(a) || s.lifecycle.Active? then InvalidArg
            else if !Streams(s.model) then NotImplemented
            else a.preflight
  {
  }

  /** An accepted begin leaves a fresh session that runs by the caller's policy and
      agreement, with what the hook wrote and the old batch results. */
  lemma BeginEffect(s: State, a: BeginArgs, hook: HookOutcome)
    requires BeginAccepted(s, a)
    ensures var t, st := Begin(s, a, hook).state, Begin(s, a, hook).status;
            t.agreement == a.agreement &&
            (t.policy.Auto? <==> a.policyRaw == 0) && (t.policy.OnFinalize? <==> a.policyRaw == 1) &&
            (t.policy.StablePrefix? <==> a.policyRaw == 2) &&
            t == Initial(s.model).(
              agreement := t.agreement, policy := t.policy, batch := s.batch,
              slot := hook.writes.slot, revision := hook.writes.revision, rows := hook.writes.rows,
              flags := hook.writes.flags, lifecycle := if st == OK then Active else Failed, lastStatus := st)
    ensures Says(hook.exit, Begin(s, a, hook).status)
  {
  }

  /** An exception is reported as out of memory or as a backend error. */
  predicate Says(e: Exit, st: Status) {
    match e
    case Returned(reported) => st == reported
    case ThrewBadAlloc => st == OOM
    case ThrewOther => st == Backend
  }

  // ----- Feed and finalize -----

  predicate FeedAccepted(s: State, pcm: Pcm, u: Option<Update>) {
    LargeEnough(u) && Audible(pcm) && pcm.finite && s.lifecycle.Active? && Streams(s.model)
  }

  predicate FinalizeAccepted(s: State, u: Option<Update>) {
    LargeEnough(u) && s.lifecycle.Active? && Streams(s.model)
  }

  /** An update that is too small is left alone; any other is emptied as far as the
      caller's struct goes. */
  predicate Emptied(before: Option<Update>, after: Option<Update>) {
    if !LargeEnough(before) then after == before
    else if before.None? then after.None?
    else
      after == Some(Update(before.value.structSize, false, false, 0, 0, 0, 0,
                           before.value.structSize < 41 && before.value.committedChanged,
                           before.value.structSize < 42 && before.value.tentativeChanged))
  }

  lemma FeedRefusals(s: State, pcm: Pcm, hook: HookOutcome, u: Option<Update>)
    requires !FeedAccepted(s, pcm, u)
    ensures var r := Feed(s, pcm, hook, u);
            r.state == s && Emptied(u, r.update) &&
            r.status == if !LargeEnough(u) then BadStructSize
                        else if !Audible(pcm) || !pcm.finite || !s.lifecycle.Active? then InvalidArg
                        else NotImplemented
  {
  }

  lemma FinalizeRefusals(s: State, hook: HookOutcome, u: Option<Update>)
    requires !FinalizeAccepted(s, u)
    ensures var r := Finalize(s, hook, u);
            r.state == s && Emptied(u, r.update) &&
            r.status == if !LargeEnough(u) then BadStructSize
                        else if !s.lifecycle.Active? then InvalidArg
                        else NotImplemented
  {
  }

  /** Something that the counter counts moved between two states of a call. */
  predicate Moved(s: State, t: State) {
    s.slot.hasResult != t.slot.hasResult || s.slot.fullText != t.slot.fullText ||
    s.committed.text != t.committed.text || s.tentative != t.tentative
  }

  /** The counter after a call: what the hook made of it, and one more when the hook did
      not touch it although a text moved or a change was reported. */
  function CountAfter(s: State, t: State, hook: HookOutcome, u: Option<Update>): int {
    if hook.writes.revision == s.revision && (Moved(s, t) || (u.Some? && hook.update.resultChanged))
    then s.revision + 1 else hook.writes.revision
  }

  /** The texts of the session, which other results are about. */
  predicate SameButTexts(s: State, t: State) {
    t == s.(committed := t.committed, tentative := t.tentative, history := t.history)
  }

  lemma FeedEffect(s: State, pcm: Pcm, hook: HookOutcome, u: Option<Update>)
    requires FeedAccepted(s, pcm, u)
    ensures Says(hook.exit, Feed(s, pcm, hook, u).status)
    ensures var t, w := Feed(s, pcm, hook, u).state, hook.writes;
            if Feed(s, pcm, hook, u).status == OK then
              SameButTexts(s.(slot := w.slot, flags := w.flags, revision := CountAfter(s, t, hook, u),
                              rows := if s.policy.OnFinalize? then Rows(0, 0, 0) else w.rows), t)
            else
              t == s.(slot := w.slot, flags := w.flags, revision := w.revision, rows := w.rows,
                      lifecycle := Failed, lastStatus := Feed(s, pcm, hook, u).status)
  {
  }

  /** The committed text of a finished stream: the final hypothesis, unless it contradicts
      what a streaming policy has committed by then. */
  function FinalCommitted(s: State, slot: Snapshot): Committed {
    if !slot.hasResult then s.committed
    else if s.policy.OnFinalize? || s.committed.text <= slot.fullText then Committed(slot.fullText, |slot.fullText|)
    else Committed(s.committed.text, |slot.fullText|)
  }

  lemma FinalizeEffect(s: State, hook: HookOutcome, u: Option<Update>)
    requires FinalizeAccepted(s, u)
    ensures Says(hook.exit, Finalize(s, hook, u).status)
    ensures var t, w := Finalize(s, hook, u).state, hook.writes;
            if Finalize(s, hook, u).status == OK then
              t == s.(slot := w.slot, flags := w.flags, revision := CountAfter(s, t, hook, u), rows := w.rows,
                      lifecycle := Finished, tentative := [], committed := FinalCommitted(s, w.slot))
            else
              t == s.(slot := w.slot, flags := w.flags, revision := w.revision, rows := w.rows,
                      lifecycle := Failed, lastStatus := Finalize(s, hook, u).status)
  {
  }

  /** The progress numbers the caller reads are the hook's, and so is everything else when
      the hook fails; only ON_FINALIZE hides the committed audio of a feed. */
  predicate Carries(hook: HookOutcome, st: Status, hidden: bool, final: bool, before: Update, after: Option<Update>) {
    && after.Some? && after.value.structSize == before.structSize
    && after.value.inputReceivedMs == hook.update.inputReceivedMs
    && after.value.bufferedMs == hook.update.bufferedMs
    && after.value.audioCommittedMs == (if hidden && st == OK then 0 else hook.update.audioCommittedMs)
    && after.value.isFinal == final
    && (st != OK ==>
          after.value.resultChanged == hook.update.resultChanged && after.value.revision == hook.update.revision)
  }

  lemma UpdateCarriesProgress(s: State, pcm: Pcm, hook: HookOutcome, u: Update)
    ensures var r := Feed(s, pcm, hook, Some(u));
            FeedAccepted(s, pcm, Some(u)) ==> Carries(hook, r.status, s.policy.OnFinalize?, false, u, r.update)
    ensures var r := Finalize(s, hook, Some(u));
            FinalizeAccepted(s, Some(u)) ==> Carries(hook, r.status, false, hook.exit.Returned?, u, r.update)
  {
  }

  // ----- Single runs -----

  predicate RunAllowed(s: State, a: RunArgs) {
    a.sizeOk && !s.lifecycle.Active? && (s.model.Model? ==> a.preflight == OK)
  }

  /** What a refused run answers, and that it has dropped the batch results by then unless
      it was the audio that it refused. */
  lemma RunRefusals(s: State, pcm: Pcm, a: RunArgs, out: RunOutcome, cancel: bool)
    requires !Audible(pcm) || !pcm.finite || !RunAllowed(s, a)
    ensures var r := Run(s, pcm, a, out, cancel);
            !r.threw && r.state == (if Audible(pcm) && pcm.finite then s.(batch := []) else s) &&
            (r.status == if !Audible(pcm) || !pcm.finite then InvalidArg
                         else if !a.sizeOk then BadStructSize
                         else if s.lifecycle.Active? then InvalidArg
                         else a.preflight)
  {
  }

  lemma RunWithoutFamily(s: State, pcm: Pcm, a: RunArgs, out: RunOutcome, cancel: bool)
    requires Audible(pcm) && pcm.finite && RunAllowed(s, a) && !Runs(s.model)
    ensures Run(s, pcm, a, out, cancel) == RunResult(Initial(s.model), NotImplemented, false)
  {
  }

  /** A run that reaches the family leaves a fresh session with the family's result and
      flags. A cancel at the final progress emission turns OK, and nothing else, into
      ABORTED and raises the aborted flag; the result stays. */
  lemma RunEffect(s: State, pcm: Pcm, a: RunArgs, out: RunOutcome, cancel: bool)
    requires Audible(pcm) && pcm.finite && RunAllowed(s, a) && Runs(s.model)
    ensures var r := Run(s, pcm, a, out, cancel);
            var cancelled := cancel && out.exit == Returned(OK);
            (r.threw <==> !out.exit.Returned?) &&
            (if cancelled then r.status == Aborted else Says(out.exit, r.status)) &&
            r.state == Initial(s.model).(
                         slot := out.slot, flags := out.flags.(aborted := out.flags.aborted || cancelled))
  {
  }

  // ----- Batches -----

  predicate BatchAllowed(s: State, pcms: seq<Pcm>, a: BatchArgs) {
    a.arraysOk && pcms != [] && (forall i :: 0 <= i < |pcms| && Audible(pcms[i]) ==> pcms[i].finite) &&
    a.run.sizeOk && !s.lifecycle.Active? && !a.hasPrefix && Runs(s.model) && a.run.preflight == OK
  }

  lemma BatchRefusals(s: State, pcms: seq<Pcm>, a: BatchArgs, env: BatchEnv)
    requires !BatchAllowed(s, pcms, a)
    ensures var r := RunBatch(s, pcms, a, env);
            var audible := forall i :: 0 <= i < |pcms| && Audible(pcms[i]) ==> pcms[i].finite;
            r.state == s && !r.threw &&
            r.status == if !a.arraysOk || pcms == [] || !audible then InvalidArg
                        else if !a.run.sizeOk then BadStructSize
                        else if s.lifecycle.Active? || a.hasPrefix then InvalidArg
                        else if s.model.Model? && a.run.preflight != OK then a.run.preflight
                        else NotImplemented
  {
    assert AnyNonFinite(pcms) <==> !(forall i :: 0 <= i < |pcms| && Audible(pcms[i]) ==> pcms[i].finite);
  }

  /** A cancel before anything ran: n ABORTED slots on a session that is fresh otherwise. */
  lemma BatchCancelledAtOnce(s: State, pcms: seq<Pcm>, a: BatchArgs, env: BatchEnv)
    requires BatchAllowed(s, pcms, a) && env.progress(0)
    ensures var r := RunBatch(s, pcms, a, env);
            !r.threw && r.status == Aborted && |r.state.batch| == |pcms| &&
            (forall i :: 0 <= i < |pcms| ==> r.state.batch[i] == ResultSet(EMPTY_SLOT, Aborted)) &&
            r.state == Initial(s.model).(batch := r.state.batch, flags := Flags(true, false, false))
  {
    assert !AnyNonFinite(pcms);
  }

  /** A family's own batch hook: its results and flags on a session that is fresh
      otherwise, padded when aborted, utterance 0 in the result slot; a cancel at the end
      turns OK into ABORTED and raises the flag. */
  lemma BatchHookEffect(s: State, pcms: seq<Pcm>, a: BatchArgs, env: BatchEnv)
    requires BatchAllowed(s, pcms, a) && s.model.batches && !env.progress(0)
    ensures var r, h, n := RunBatch(s, pcms, a, env), env.hook, |pcms|;
            var cancelled := env.progress(n) && h.exit == Returned(OK);
            var padded := !r.threw && r.status == Aborted && |h.results| < n;
            (r.threw <==> !h.exit.Returned?) &&
            (if cancelled then r.status == Aborted else Says(h.exit, r.status)) &&
            h.results <= r.state.batch && |r.state.batch| == (if padded then n else |h.results|) &&
            (forall i :: |h.results| <= i < |r.state.batch| ==> r.state.batch[i] == ResultSet(EMPTY_SLOT, Aborted)) &&
            r.state == Initial(s.model).(
                         batch := r.state.batch,
                         slot := if r.threw || r.state.batch == [] then h.slot else r.state.batch[0].slot,
                         flags := h.flags.(aborted := h.flags.aborted || cancelled))
  {
    assert !AnyNonFinite(pcms);
    assert [] + env.hook.results == env.hook.results;
  }
}
